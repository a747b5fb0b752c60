/** The resumable build of a TPC-H database: eight generated partitions, a sidecar that records progress, and an
    atomic publication, where a crash may come between any two effects on disk. */
module TpchBuild {
  import opened Wrappers

  /** `children = 8`: as many partitions, and as many tables. */
  function Partitions(): (n: nat)
    ensures n > 1
  {
    8
  }

  /** How often each partition was generated into a database file, and by which source commits. */
  datatype Content = Content(copies: seq<nat>, commits: set<string>)

  datatype Sidecar = Sidecar(scale: nat, commit: string, completed: nat)

  datatype Manifest = Manifest(scale: nat, fingerprint: string, rows: seq<nat>, commit: string)

  /** Files that survive a crash. */
  datatype Disk = Disk(building: Option<Content>, sidecar: Option<Sidecar>, database: Option<Content>, manifest: Option<Manifest>)

  /** The scale factor, the rows partition `p` puts into table `t`, and size with SHA-256 of a file. */
  datatype Config = Config(scale: nat, rows: (nat, nat) -> nat, fingerprint: Content -> string)

  ghost predicate FillsSome(cfg: Config, p: nat) {
    exists t: nat | t < Partitions() :: cfg.rows(p, t) > 0
  }

  /** Every partition puts rows into some table. */
  ghost predicate Productive(cfg: Config) {
    forall p: nat | p < Partitions() :: FillsSome(cfg, p)
  }

  /** One copy of each partition below `k`, none of the others. */
  function OnesTo(k: nat): (copies: seq<nat>)
    ensures |copies| == Partitions() && forall p | 0 <= p < Partitions() :: copies[p] == if p < k then 1 else 0
  {
    seq(Partitions(), p => if p < k then 1 else 0)
  }

  function Nothing(): Content {
    Content(OnesTo(0), {})
  }

  function Empty(): Disk {
    Disk(None, None, None, None)
  }

  // ----- row counts -----

  /** Rows of table `t` that the first `n` partitions contribute, each as often as it was generated. */
  function CountRows(cfg: Config, copies: seq<nat>, t: nat, n: nat): nat
    requires n <= |copies|
  {
    if n == 0 then 0 else CountRows(cfg, copies, t, n - 1) + copies[n - 1] * cfg.rows(n - 1, t)
  }

  function ExpectedRows(cfg: Config, t: nat): nat {
    CountRows(cfg, OnesTo(Partitions()), t, Partitions())
  }

  /** `_validate_database`: all eight tables have exactly the expected rows. */
  predicate CountsMatch(cfg: Config, content: Content) {
    |content.copies| == Partitions()
    && forall t: nat | t < Partitions() :: CountRows(cfg, content.copies, t, Partitions()) == ExpectedRows(cfg, t)
  }

  /** The row counts of all tables. */
  function TableRows(cfg: Config, content: Content): seq<nat> {
    if |content.copies| == Partitions() then seq(Partitions(), t requires 0 <= t => CountRows(cfg, content.copies, t, Partitions())) else []
  }

  function ExpectedTables(cfg: Config): seq<nat> {
    seq(Partitions(), t requires 0 <= t => ExpectedRows(cfg, t))
  }

  predicate ExactlyOnce(content: Content) {
    content.copies == OnesTo(Partitions())
  }

  lemma {:induction false} MoreCopies(cfg: Config, copies: seq<nat>, t: nat, n: nat, p: nat)
    requires n <= Partitions() == |copies| && forall q | 0 <= q < n :: copies[q] >= 1
    ensures CountRows(cfg, copies, t, n) >= CountRows(cfg, OnesTo(Partitions()), t, n)
    ensures p < n && copies[p] > 1 && cfg.rows(p, t) > 0 ==> CountRows(cfg, copies, t, n) > CountRows(cfg, OnesTo(Partitions()), t, n)
  {
    if n > 0 {
      MoreCopies(cfg, copies, t, n - 1, p);
      Multiple(copies[n - 1], cfg.rows(n - 1, t));
    }
  }

  lemma Multiple(c: nat, r: nat)
    requires c >= 1
    ensures c * r >= 1 * r && (c > 1 && r > 0 ==> c * r > 1 * r)
  {}

  /** When no partition is missing, the row counts tell a repeated partition from a clean build. */
  lemma CountsAreExact(cfg: Config, content: Content)
    requires Productive(cfg) && |content.copies| == Partitions()
    requires forall p | 0 <= p < Partitions() :: content.copies[p] >= 1
    ensures CountsMatch(cfg, content) <==> ExactlyOnce(content)
  {
    if CountsMatch(cfg, content) {
      forall p: nat | p < Partitions() ensures content.copies[p] == 1 {
        assert FillsSome(cfg, p);
        var t: nat :| t < Partitions() && cfg.rows(p, t) > 0;
        MoreCopies(cfg, content.copies, t, Partitions(), p);
      }
    }
  }

  // ----- one run, effect by effect -----

  datatype Outcome = Reused | Published | Rejected

  /** Where a run stands between two effects. */
  datatype Phase =
    | Start
    | Unlinking
    | Connecting(step: nat)
    | Ready(step: nat)
    | Generated(step: nat)
    | Replacing
    | Unchecking
    | Manifesting
    | Done(outcome: Outcome)

  predicate Reusable(cfg: Config, d: Disk) {
    d.database.Some? && d.manifest.Some? && d.manifest.value.scale == cfg.scale
    && d.manifest.value.fingerprint == cfg.fingerprint(d.database.value) && d.manifest.value.rows == ExpectedTables(cfg)
  }

  /** `_resume_partition` accepts the sidecar. */
  predicate Resumes(cfg: Config, d: Disk, commit: string) {
    d.building.Some? && d.sidecar.Some? && d.sidecar.value.scale == cfg.scale
    && d.sidecar.value.commit == commit && d.sidecar.value.completed <= Partitions()
  }

  function Generate(content: Content, step: nat, commit: string): Content {
    if step < |content.copies| then Content(content.copies[step := content.copies[step] + 1], content.commits + {commit}) else content
  }

  /** The manifest written for a published database. */
  function Attestation(cfg: Config, content: Content, commit: string): Manifest {
    Manifest(cfg.scale, cfg.fingerprint(content), TableRows(cfg, content), commit)
  }

  /** The next effect of a run under `commit`. */
  function Next(cfg: Config, d: Disk, phase: Phase, commit: string): (Disk, Phase) {
    match phase
    case Start =>
      if Reusable(cfg, d) then (d, Done(Reused))
      else if d.building.None? && d.sidecar.None? then (d, Connecting(0))
      else if Resumes(cfg, d, commit) then (d, Connecting(d.sidecar.value.completed))
      else (d.(building := None), Unlinking)
    case Unlinking => (d.(sidecar := None), Connecting(0))
    case Connecting(k) => (if d.building.None? then d.(building := Some(Nothing())) else d, Ready(k))
    case Ready(k) =>
      if d.building.None? then (d, Done(Rejected))
      else if k < Partitions() then (d.(building := Some(Generate(d.building.value, k, commit))), Generated(k))
      else if CountsMatch(cfg, d.building.value) then (d, Replacing)
      else (d, Done(Rejected))
    case Generated(k) => (d.(sidecar := Some(Sidecar(cfg.scale, commit, k + 1))), Ready(k + 1))
    case Replacing => (d.(database := d.building, building := None), Unchecking)
    case Unchecking => (d.(sidecar := None), Manifesting)
    case Manifesting =>
      if d.database.None? then (d, Done(Published))
      else (d.(manifest := Some(Attestation(cfg, d.database.value, commit))), Done(Published))
    case Done(_) => (d, phase)
  }

  /** The first `n` effects; stopping there is a crash unless the run is done. */
  function Iterate(cfg: Config, d: Disk, phase: Phase, commit: string, n: nat): (Disk, Phase)
    decreases n
  {
    if n == 0 || phase.Done? then (d, phase)
    else
      var (d', phase') := Next(cfg, d, phase, commit);
      Iterate(cfg, d', phase', commit, n - 1)
  }

  // ----- what every effect keeps -----

  /** Partitions below `k` are there, none above `k` is; partition `k` itself may be there if a run died over it. */
  predicate BuiltTo(content: Content, k: nat) {
    |content.copies| == Partitions()
    && (forall p | 0 <= p < Partitions() && p < k :: content.copies[p] >= 1)
    && (forall p | 0 <= p < Partitions() && p > k :: content.copies[p] == 0)
  }

  predicate Sound(cfg: Config, d: Disk) {
    && (d.building.Some? && d.sidecar.Some? ==>
          var s := d.sidecar.value;
          s.scale == cfg.scale && 1 <= s.completed <= Partitions()
          && BuiltTo(d.building.value, s.completed) && d.building.value.commits == {s.commit})
    && (d.database.Some? ==> ExactlyOnce(d.database.value) && |d.database.value.commits| == 1)
  }

  /** What holds in the middle of a run under `commit`, on top of `Sound`. */
  predicate InPhase(cfg: Config, d: Disk, phase: Phase, commit: string) {
    match phase
    case Start => true
    case Unlinking => d.building.None?
    case Connecting(k) => if k == 0 then d.building.None? && d.sidecar.None? else Resumes(cfg, d, commit) && d.sidecar.value.completed == k
    case Ready(k) =>
      if k == 0 then d.building == Some(Nothing()) && d.sidecar.None?
      else Resumes(cfg, d, commit) && d.sidecar.value.completed == k
    case Generated(k) =>
      && k < Partitions() && d.building.Some?
      && |d.building.value.copies| == Partitions()
      && (forall p | 0 <= p <= k :: d.building.value.copies[p] >= 1)
      && (forall p | k < p < Partitions() :: d.building.value.copies[p] == 0)
      && d.building.value.commits == {commit}
      && (if k == 0 then d.sidecar.None? else Resumes(cfg, d, commit) && d.sidecar.value.completed == k)
    case Replacing => Resumes(cfg, d, commit) && d.sidecar.value.completed == Partitions() && ExactlyOnce(d.building.value)
    case Unchecking => d.building.None? && PublishedUnder(d, commit)
    case Manifesting => d.building.None? && d.sidecar.None? && PublishedUnder(d, commit)
    case Done(Published) =>
      d.building.None? && d.sidecar.None? && PublishedUnder(d, commit) && Attested(cfg, d, commit)
    case Done(Reused) => Reusable(cfg, d)
    case Done(Rejected) => true
  }

  /** The published database was generated under this commit. */
  predicate PublishedUnder(d: Disk, commit: string) {
    d.database.Some? && d.database.value.commits == {commit}
  }

  /** The manifest names the scale, the very file that is published, the row counts of a clean build, and the commit. */
  predicate Attested(cfg: Config, d: Disk, commit: string) {
    && d.database.Some? && d.manifest.Some?
    && d.manifest.value.scale == cfg.scale && d.manifest.value.commit == commit
    && d.manifest.value.fingerprint == cfg.fingerprint(d.database.value)
    && d.manifest.value.rows == ExpectedTables(cfg)
  }

  lemma CleanRows(cfg: Config, content: Content)
    requires ExactlyOnce(content)
    ensures TableRows(cfg, content) == ExpectedTables(cfg)
  {}

  lemma ReadyKeeps(cfg: Config, d: Disk, k: nat, commit: string)
    requires Productive(cfg) && Sound(cfg, d) && InPhase(cfg, d, Ready(k), commit)
    ensures var (d', phase') := Next(cfg, d, Ready(k), commit);
            Sound(cfg, d') && InPhase(cfg, d', phase', commit)
  {
    if k == Partitions() { CountsAreExact(cfg, d.building.value); }
    hide Partitions, CountsMatch, Productive, OnesTo, Reusable;
  }

  lemma GeneratedKeeps(cfg: Config, d: Disk, k: nat, commit: string)
    requires Sound(cfg, d) && InPhase(cfg, d, Generated(k), commit)
    ensures var (d', phase') := Next(cfg, d, Generated(k), commit);
            Sound(cfg, d') && InPhase(cfg, d', phase', commit)
  {
    hide Partitions, CountsMatch, OnesTo, Reusable, Generate;
  }

  /** Every single effect keeps the disk sound, so a crash after it does too. */
  lemma NextKeeps(cfg: Config, d: Disk, phase: Phase, commit: string)
    requires Productive(cfg) && Sound(cfg, d) && InPhase(cfg, d, phase, commit)
    ensures var (d', phase') := Next(cfg, d, phase, commit);
            Sound(cfg, d') && InPhase(cfg, d', phase', commit)
  {
    if phase.Ready? {
      ReadyKeeps(cfg, d, phase.step, commit);
    } else if phase.Generated? {
      GeneratedKeeps(cfg, d, phase.step, commit);
    } else if phase.Manifesting? {
      CleanRows(cfg, d.database.value);
      hide Partitions, OnesTo, TableRows, ExpectedTables, BuiltTo;
    } else {
      hide Partitions, CountsMatch, OnesTo, Reusable, Generate, Productive, BuiltTo;
    }
  }

  lemma {:induction false} IterateKeeps(cfg: Config, d: Disk, phase: Phase, commit: string, n: nat)
    requires Productive(cfg) && Sound(cfg, d) && InPhase(cfg, d, phase, commit)
    ensures Sound(cfg, Iterate(cfg, d, phase, commit, n).0)
    ensures InPhase(cfg, Iterate(cfg, d, phase, commit, n).0, Iterate(cfg, d, phase, commit, n).1, commit)
    decreases n
  {
    NextKeeps(cfg, d, phase, commit);
    hide Sound, InPhase, Next;
    if n > 0 && !phase.Done? {
      var (d', phase') := Next(cfg, d, phase, commit);
      IterateKeeps(cfg, d', phase', commit, n - 1);
    }
  }

  // ----- any history of runs -----

  /** A run under a commit that dies after `effects` effects, if it is not done by then. */
  datatype Attempt = Attempt(commit: string, effects: nat)

  function History(cfg: Config, d: Disk, attempts: seq<Attempt>): Disk {
    if attempts == [] then d
    else
      var last := attempts[|attempts| - 1];
      Iterate(cfg, History(cfg, d, attempts[..|attempts| - 1]), Start, last.commit, last.effects).0
  }

  /** After any number of runs, crashes and commit changes: an accepted sidecar that says `k` stands beside a build that
      holds partitions 0 to k-1, none above k, all generated under its commit; and whatever was published holds each of
      the eight partitions exactly once. */
  lemma {:induction false} EveryHistoryIsSound(cfg: Config, attempts: seq<Attempt>)
    requires Productive(cfg)
    ensures Sound(cfg, History(cfg, Empty(), attempts))
  {
    if attempts != [] {
      var last, before := attempts[|attempts| - 1], attempts[..|attempts| - 1];
      EveryHistoryIsSound(cfg, before);
      IterateKeeps(cfg, History(cfg, Empty(), before), Start, last.commit, last.effects);
    }
  }

  // ----- several scales -----

  /** A run at one of the scale factors. */
  datatype ScaledAttempt = ScaledAttempt(scale: nat, attempt: Attempt)

  /** Every file name holds the scale, so each scale has files of its own. */
  function DiskOf(disks: map<nat, Disk>, scale: nat): Disk {
    if scale in disks then disks[scale] else Empty()
  }

  function MixedHistory(cfgOf: nat -> Config, attempts: seq<ScaledAttempt>): map<nat, Disk> {
    if attempts == [] then map[]
    else
      var before, last := MixedHistory(cfgOf, attempts[..|attempts| - 1]), attempts[|attempts| - 1];
      before[last.scale := Iterate(cfgOf(last.scale), DiskOf(before, last.scale), Start, last.attempt.commit, last.attempt.effects).0]
  }

  function OwnAttempts(attempts: seq<ScaledAttempt>, scale: nat): seq<Attempt> {
    if attempts == [] then []
    else
      var before, last := OwnAttempts(attempts[..|attempts| - 1], scale), attempts[|attempts| - 1];
      if last.scale == scale then before + [last.attempt] else before
  }

  /** What a scale's files hold depends on the runs at that scale only. */
  lemma {:induction false} ScalesAreSeparate(cfgOf: nat -> Config, attempts: seq<ScaledAttempt>, scale: nat)
    ensures DiskOf(MixedHistory(cfgOf, attempts), scale) == History(cfgOf(scale), Empty(), OwnAttempts(attempts, scale))
  {
    if attempts != [] {
      var front, last := attempts[..|attempts| - 1], attempts[|attempts| - 1];
      ScalesAreSeparate(cfgOf, front, scale);
      if last.scale == scale {
        var own := OwnAttempts(attempts, scale);
        assert own[..|own| - 1] == OwnAttempts(front, scale);
      }
    }
  }

  /** So scale changes between runs keep every build sound as well. */
  lemma EveryMixedHistoryIsSound(cfgOf: nat -> Config, attempts: seq<ScaledAttempt>, scale: nat)
    requires Productive(cfgOf(scale))
    ensures Sound(cfgOf(scale), DiskOf(MixedHistory(cfgOf, attempts), scale))
  {
    ScalesAreSeparate(cfgOf, attempts, scale);
    EveryHistoryIsSound(cfgOf(scale), OwnAttempts(attempts, scale));
  }

  // ----- when a run that does not crash publishes -----

  /** Partitions below `k` exactly once, no other at all. */
  predicate CleanTo(content: Content, k: nat) {
    content.copies == OnesTo(k)
  }

  /** The sidecar this commit would resume from stands beside a build with a repeated or unrecorded partition. */
  predicate Spoiled(cfg: Config, d: Disk, commit: string) {
    Resumes(cfg, d, commit) && !CleanTo(d.building.value, d.sidecar.value.completed)
  }

  /** Enough effects to finish a run from any phase. */
  function Left(phase: Phase): nat {
    match phase
    case Start => 2 * Partitions() + 7
    case Unlinking => 2 * Partitions() + 6
    case Connecting(k) => if k <= Partitions() then 2 * (Partitions() - k) + 5 else 0
    case Ready(k) => if k <= Partitions() then 2 * (Partitions() - k) + 4 else 0
    case Generated(k) => if k < Partitions() then 2 * (Partitions() - k) + 3 else 0
    case Replacing => 3
    case Unchecking => 2
    case Manifesting => 1
    case Done(_) => 0
  }

  /** Whether a run in this phase is on its way to publishing. */
  predicate OnCourse(cfg: Config, d: Disk, phase: Phase, commit: string) {
    match phase
    case Start => Reusable(cfg, d) || !Spoiled(cfg, d, commit)
    case Unlinking => true
    case Connecting(k) => k == 0 || (d.building.Some? && CleanTo(d.building.value, k))
    case Ready(k) => d.building.Some? && CleanTo(d.building.value, k)
    case Generated(k) => d.building.Some? && CleanTo(d.building.value, k + 1)
    case Replacing => true
    case Unchecking => true
    case Manifesting => true
    case Done(outcome) => outcome != Rejected
  }

  lemma GenerateClean(content: Content, k: nat, commit: string)
    requires BuiltTo(content, k) && k < Partitions()
    ensures CleanTo(Generate(content, k, commit), k + 1) <==> CleanTo(content, k)
  {
    var after := Generate(content, k, commit);
    if CleanTo(after, k + 1) {
      assert after.copies[k] == content.copies[k] + 1;
      forall p | 0 <= p < Partitions() ensures content.copies[p] == if p < k then 1 else 0 {
        assert p != k ==> after.copies[p] == content.copies[p];
      }
    }
  }

  lemma ReadyOnCourse(cfg: Config, d: Disk, k: nat, commit: string)
    requires Productive(cfg) && Sound(cfg, d) && InPhase(cfg, d, Ready(k), commit)
    ensures var (d', phase') := Next(cfg, d, Ready(k), commit);
            && (OnCourse(cfg, d', phase', commit) <==> OnCourse(cfg, d, Ready(k), commit))
            && Left(phase') < Left(Ready(k))
  {
    if k < Partitions() {
      GenerateClean(d.building.value, k, commit);
    } else {
      CountsAreExact(cfg, d.building.value);
    }
    hide Partitions, CountsMatch, Productive, OnesTo, Generate, Reusable;
  }

  /** One effect decides nothing new: on course stays on course, off course stays off. */
  lemma NextOnCourse(cfg: Config, d: Disk, phase: Phase, commit: string)
    requires Productive(cfg) && Sound(cfg, d) && InPhase(cfg, d, phase, commit)
    ensures var (d', phase') := Next(cfg, d, phase, commit);
            && (OnCourse(cfg, d', phase', commit) <==> OnCourse(cfg, d, phase, commit))
            && (!phase.Done? ==> Left(phase') < Left(phase))
  {
    if phase.Ready? {
      ReadyOnCourse(cfg, d, phase.step, commit);
    } else {
      assert CleanTo(Nothing(), 0);
      hide Partitions, CountsMatch, Productive, CleanTo, OnesTo, Generate, Nothing;
    }
  }

  lemma {:induction false} IterateFinishes(cfg: Config, d: Disk, phase: Phase, commit: string, n: nat)
    requires Productive(cfg) && Sound(cfg, d) && InPhase(cfg, d, phase, commit) && n >= Left(phase)
    ensures var end := Iterate(cfg, d, phase, commit, n).1;
            end.Done? && (OnCourse(cfg, d, phase, commit) <==> end.outcome != Rejected)
    decreases n
  {
    if !phase.Done? {
      NextKeeps(cfg, d, phase, commit);
      NextOnCourse(cfg, d, phase, commit);
      hide Sound, InPhase, Next, OnCourse, Left;
      var (d', phase') := Next(cfg, d, phase, commit);
      IterateFinishes(cfg, d', phase', commit, n - 1);
    }
  }

  /** A run that is not interrupted ends with a valid database exactly when one is there already, or the build it
      resumes holds the recorded partitions once each and nothing else. */
  lemma PublishesExactly(cfg: Config, d: Disk, commit: string, n: nat)
    requires Productive(cfg) && Sound(cfg, d) && n >= Left(Start)
    ensures var end := Iterate(cfg, d, Start, commit, n).1;
            end.Done? && (end.outcome != Rejected <==> Reusable(cfg, d) || !Spoiled(cfg, d, commit))
  {
    IterateFinishes(cfg, d, Start, commit, n);
  }

  // ----- what a run leaves behind -----

  /** Only a run that has not begun can still find the artifact ready. */
  lemma {:induction false} NeverReusedLater(cfg: Config, d: Disk, phase: Phase, commit: string, n: nat)
    requires !phase.Start? && phase != Done(Reused)
    ensures Iterate(cfg, d, phase, commit, n).1 != Done(Reused)
    decreases n
  {
    hide Partitions, CountsMatch, Reusable, Generate, Nothing, Attestation;
    if n > 0 && !phase.Done? {
      var (d', phase') := Next(cfg, d, phase, commit);
      NeverReusedLater(cfg, d', phase', commit, n - 1);
    }
  }

  /** What a run under `commit`, from `before`, has done when it stops in `phase`. */
  ghost predicate Ended(cfg: Config, before: Disk, after: Disk, phase: Phase, commit: string) {
    && Sound(cfg, after)
    && (phase == Done(Reused) ==> after == before && Reusable(cfg, before))
    && (phase == Done(Published) ==>
          && after.building.None? && after.sidecar.None?
          && PublishedUnder(after, commit) && Attested(cfg, after, commit) && ExactlyOnce(after.database.value))
  }

  lemma RunEnds(cfg: Config, d: Disk, commit: string, n: nat)
    requires Productive(cfg) && Sound(cfg, d)
    ensures var (d', phase) := Iterate(cfg, d, Start, commit, n); Ended(cfg, d, d', phase, commit)
  {
    IterateKeeps(cfg, d, Start, commit, n);
    hide Sound, Productive, Reusable, Attested, Resumes, Partitions, ExactlyOnce;
    if n > 0 {
      var (d', phase) := Next(cfg, d, Start, commit);
      if phase != Done(Reused) { NeverReusedLater(cfg, d', phase, commit, n - 1); }
    }
    assert Sound(cfg, Iterate(cfg, d, Start, commit, n).0) by {}
    PublishedIsClean(cfg, Iterate(cfg, d, Start, commit, n).0);
  }

  lemma PublishedIsClean(cfg: Config, d: Disk)
    requires Sound(cfg, d)
    ensures d.database.Some? ==> ExactlyOnce(d.database.value)
  {}

  /** An uninterrupted run reuses what is there exactly when file and manifest are there and the manifest names this scale,
      this file and the expected row counts; it changes nothing then. If it publishes, file and manifest are as described
      and every later run, under any commit, reuses them and changes nothing. */
  lemma OutcomeExact(cfg: Config, d: Disk, commit: string, n: nat)
    requires Productive(cfg) && Sound(cfg, d) && n >= Left(Start)
    ensures var (d', phase) := Iterate(cfg, d, Start, commit, n);
            && phase.Done? && Ended(cfg, d, d', phase, commit)
            && (phase == Done(Reused)
                <==> d.database.Some? && d.manifest.Some? && d.manifest.value.scale == cfg.scale
                     && d.manifest.value.fingerprint == cfg.fingerprint(d.database.value)
                     && d.manifest.value.rows == ExpectedTables(cfg))
            && (phase == Done(Published) ==> forall later, m: nat | m > 0 :: Iterate(cfg, d', Start, later, m) == (d', Done(Reused)))
  {
    RunEnds(cfg, d, commit, n);
    PublishesExactly(cfg, d, commit, n);
    var (d', phase) := Iterate(cfg, d, Start, commit, n);
    if phase == Done(Published) {
      assert Reusable(cfg, d');
      forall later, m: nat | m > 0 ensures Iterate(cfg, d', Start, later, m) == (d', Done(Reused)) {
        ReusedAtOnce(cfg, d', later, m);
      }
    }
    if Reusable(cfg, d) { ReusedAtOnce(cfg, d, commit, n); }
  }

  lemma ReusedAtOnce(cfg: Config, d: Disk, commit: string, n: nat)
    requires Reusable(cfg, d) && n > 0
    ensures Iterate(cfg, d, Start, commit, n) == (d, Done(Reused))
  {
    assert Iterate(cfg, d, Done(Reused), commit, n - 1) == (d, Done(Reused));
  }

  // ----- the window that spoils a build -----

  /** A spoiled build with nothing published to fall back on. */
  predicate Stuck(cfg: Config, d: Disk, commit: string) {
    Spoiled(cfg, d, commit) && !Reusable(cfg, d)
  }

  /** Past its start, a run over a spoiled build only spoils it further. */
  lemma NextSpoils(cfg: Config, d: Disk, phase: Phase, commit: string)
    requires Productive(cfg) && Sound(cfg, d) && InPhase(cfg, d, phase, commit)
    requires Spoiled(cfg, d, commit) && !OnCourse(cfg, d, phase, commit) && !phase.Done?
    ensures var (d', phase') := Next(cfg, d, phase, commit);
            d'.database == d.database && d'.manifest == d.manifest && Spoiled(cfg, d', commit) && !OnCourse(cfg, d', phase', commit)
  {
    NextOnCourse(cfg, d, phase, commit);
    var (d', phase') := Next(cfg, d, phase, commit);
    hide CountsMatch, Productive;
    match phase
    case Ready(k) =>
      if k < Partitions() {
        assert d'.building.value.copies[k] >= 1;
        assert seq(Partitions(), p => if p < k then 1 else 0)[k] == 0;
      }
    case _ =>
  }

  lemma {:induction false} IterateSpoils(cfg: Config, d: Disk, phase: Phase, commit: string, n: nat)
    requires Productive(cfg) && Sound(cfg, d) && InPhase(cfg, d, phase, commit)
    requires Spoiled(cfg, d, commit) && !OnCourse(cfg, d, phase, commit)
    ensures var d' := Iterate(cfg, d, phase, commit, n).0;
            d'.database == d.database && d'.manifest == d.manifest && Spoiled(cfg, d', commit)
    decreases n
  {
    if n > 0 && !phase.Done? {
      NextKeeps(cfg, d, phase, commit);
      NextSpoils(cfg, d, phase, commit);
      hide Sound, InPhase, OnCourse, Productive, Spoiled, Next;
      var (d', phase') := Next(cfg, d, phase, commit);
      IterateSpoils(cfg, d', phase', commit, n - 1);
    }
  }

  /** No number of reruns under the same commit ever gets a stuck build published. */
  lemma {:induction false} StuckForever(cfg: Config, d: Disk, commit: string, attempts: seq<Attempt>)
    requires Productive(cfg) && Sound(cfg, d) && Stuck(cfg, d, commit)
    requires forall a | a in attempts :: a.commit == commit
    ensures var d' := History(cfg, d, attempts);
            Sound(cfg, d') && Stuck(cfg, d', commit) && d'.database == d.database && d'.manifest == d.manifest
  {
    if attempts != [] {
      var last, before := attempts[|attempts| - 1], attempts[..|attempts| - 1];
      assert last in attempts;
      StuckForever(cfg, d, commit, before);
      var d1 := History(cfg, d, before);
      IterateKeeps(cfg, d1, Start, commit, last.effects);
      IterateSpoils(cfg, d1, Start, commit, last.effects);
      hide Sound, Spoiled, Iterate;
    }
  }

  /** A crash of a run that was on course leaves a stuck build exactly when it falls between the database committing a
      partition after the first and the sidecar recording it. */
  lemma CrashWindowExact(cfg: Config, d: Disk, phase: Phase, commit: string)
    requires Sound(cfg, d) && InPhase(cfg, d, phase, commit) && OnCourse(cfg, d, phase, commit)
    requires !Reusable(cfg, d) && !phase.Done?
    ensures Stuck(cfg, d, commit) <==> phase.Generated? && phase.step >= 1
  {
    if phase.Generated? && phase.step >= 1 {
      var k := phase.step;
      assert d.building.value.copies[k] == 1;
      assert seq(Partitions(), p => if p < k then 1 else 0)[k] == 0;
    } else if phase.Replacing? {
      assert d.building.value.copies == seq(Partitions(), p => if p < Partitions() then 1 else 0);
    }
  }

  /** A run under any other commit discards a stuck build and publishes. */
  lemma OtherCommitRecovers(cfg: Config, d: Disk, commit: string, other: string, n: nat)
    requires Productive(cfg) && Sound(cfg, d) && Stuck(cfg, d, commit) && other != commit && n >= Left(Start)
    ensures var end := Iterate(cfg, d, Start, other, n).1; end.Done? && end.outcome != Rejected
  {
    PublishesExactly(cfg, d, other, n);
  }

  /** The window is reached: from nothing, a run that dies after its fifth effect leaves a stuck build. */
  lemma WindowReached(cfg: Config, commit: string)
    requires Productive(cfg)
    ensures Stuck(cfg, History(cfg, Empty(), [Attempt(commit, 5)]), commit)
  {
    var run := Iterate(cfg, Empty(), Start, commit, 5);
    FiveEffects(cfg, commit);
    assert [Attempt(commit, 5)][..0] == [];
    assert History(cfg, Empty(), [Attempt(commit, 5)]) == run.0;
    assert run.0.building.value.copies[1] == 1;
    assert seq(Partitions(), p => if p < 1 then 1 else 0)[1] == 0;
  }

  lemma FiveEffects(cfg: Config, commit: string)
    ensures Iterate(cfg, Empty(), Start, commit, 5)
            == (Disk(Some(Content(Nothing().copies[0 := 1][1 := 1], {commit})), Some(Sidecar(cfg.scale, commit, 1)), None, None), Generated(1))
  {
    var d2 := Disk(Some(Nothing()), None, None, None);
    var d3 := Disk(Some(Content(Nothing().copies[0 := 1], {commit})), None, None, None);
    var d4 := d3.(sidecar := Some(Sidecar(cfg.scale, commit, 1)));
    assert {} + {commit} == {commit} && {commit} + {commit} == {commit};
    assert Iterate(cfg, Empty(), Start, commit, 5) == Iterate(cfg, Empty(), Connecting(0), commit, 4);
    assert Iterate(cfg, Empty(), Connecting(0), commit, 4) == Iterate(cfg, d2, Ready(0), commit, 3);
    assert Iterate(cfg, d2, Ready(0), commit, 3) == Iterate(cfg, d3, Generated(0), commit, 2);
    assert Iterate(cfg, d3, Generated(0), commit, 2) == Iterate(cfg, d4, Ready(1), commit, 1);
  }

  // ----- the program -----

  class Preparation {
    const cfg: Config
    var disk: Disk

    constructor (cfg: Config)
      ensures this.cfg == cfg && disk == Empty()
    {
      this.cfg := cfg;
      disk := Empty();
    }

    /** `prepare_tpch_scale` under `commit`, dying after `effects` effects on disk unless it is done by then. */
    method Run(commit: string, effects: nat) returns (phase: Phase)
      modifies this`disk
      ensures (disk, phase) == Iterate(cfg, old(disk), Start, commit, effects)
      ensures Productive(cfg) && Sound(cfg, old(disk)) ==> Ended(cfg, old(disk), disk, phase, commit)
    {
      if Productive(cfg) && Sound(cfg, disk) { RunEnds(cfg, disk, commit, effects); }
      hide Ended, Sound, Productive;
      if effects == 0 { return Start; }
      if Reusable(cfg, disk) { return Done(Reused); }
      var budget, start := effects - 1, 0;
      if disk.building.None? && disk.sidecar.None? {
      } else if Resumes(cfg, disk, commit) {
        start := disk.sidecar.value.completed;
      } else {
        disk := disk.(building := None);
        if budget == 0 { return Unlinking; }
        budget := budget - 1;
        disk := disk.(sidecar := None);
      }
      assert Iterate(cfg, old(disk), Start, commit, effects) == Iterate(cfg, disk, Connecting(start), commit, budget);
      if budget == 0 { return Connecting(start); }
      budget := budget - 1;
      if disk.building.None? { disk := disk.(building := Some(Nothing())); }
      phase := Finish(commit, start, budget);
    }

    /** The partition loop, validation and publication, on an open build. */
    method Finish(commit: string, start: nat, effects: nat) returns (phase: Phase)
      requires disk.building.Some? && start <= Partitions()
      modifies this`disk
      ensures (disk, phase) == Iterate(cfg, old(disk), Ready(start), commit, effects)
    {
      var budget, step := effects, start;
      while step < Partitions()
        invariant start <= step <= Partitions() && disk.building.Some?
        invariant Iterate(cfg, old(disk), Ready(start), commit, effects) == Iterate(cfg, disk, Ready(step), commit, budget)
      {
        if budget == 0 { return Ready(step); }
        budget := budget - 1;
        disk := disk.(building := Some(Generate(disk.building.value, step, commit)));
        if budget == 0 { return Generated(step); }
        budget := budget - 1;
        disk := disk.(sidecar := Some(Sidecar(cfg.scale, commit, step + 1)));
        step := step + 1;
      }
      if budget == 0 { return Ready(Partitions()); }
      if !CountsMatch(cfg, disk.building.value) {
        assert Iterate(cfg, disk, Done(Rejected), commit, budget - 1) == (disk, Done(Rejected));
        return Done(Rejected);
      }
      phase := Publish(commit, budget - 1);
    }

    /** Replaces the published file, drops the sidecar, and only then writes the manifest. */
    method Publish(commit: string, effects: nat) returns (phase: Phase)
      requires disk.building.Some?
      modifies this`disk
      ensures (disk, phase) == Iterate(cfg, old(disk), Replacing, commit, effects)
    {
      if effects == 0 { return Replacing; }
      disk := disk.(database := disk.building, building := None);
      assert Iterate(cfg, old(disk), Replacing, commit, effects) == Iterate(cfg, disk, Unchecking, commit, effects - 1);
      if effects == 1 { return Unchecking; }
      disk := disk.(sidecar := None);
      assert Iterate(cfg, old(disk), Replacing, commit, effects) == Iterate(cfg, disk, Manifesting, commit, effects - 2);
      if effects == 2 { return Manifesting; }
      disk := disk.(manifest := Some(Attestation(cfg, disk.database.value, commit)));
      assert Iterate(cfg, disk, Done(Published), commit, effects - 3) == (disk, Done(Published));
      phase := Done(Published);
    }

    /** Any number of runs, each cut off anywhere. */
    method RunAll(attempts: seq<Attempt>)
      requires Productive(cfg) && disk == Empty()
      modifies this`disk
      ensures disk == History(cfg, Empty(), attempts) && Sound(cfg, disk)
    {
      for i := 0 to |attempts|
        invariant disk == History(cfg, Empty(), attempts[..i])
      {
        assert attempts[..i + 1][..i] == attempts[..i];
        var phase := Run(attempts[i].commit, attempts[i].effects);
      }
      assert attempts[..|attempts|] == attempts;
      EveryHistoryIsSound(cfg, attempts);
    }
  }
}
