/** The event log of an execution certificate, the checks on it, and a tampered copy of it. */
module CertificateLog {
  import opened Wrappers
  import opened Bags
  import opened Scheduling

  datatype EventKind =
    | PlanApproved | PolicyDecisionRecorded | OperatorStarted | OperatorCompleted
    | ResultMaterialized | LineageRecorded | CertificateEmitted

  datatype Event = Event(sequence: nat, kind: EventKind, operator: Option<string>)

  // ----- the checks -----

  predicate Is(e: Event, kind: EventKind, operator: Option<string>) {
    e.kind == kind && (operator.Some? ==> e.operator == operator)
  }

  /** `first_sequence`: the least sequence number of a matching event. */
  function FirstSequence(events: seq<Event>, kind: EventKind, operator: Option<string>): Option<nat> {
    if events == [] then None
    else
      var before, last := FirstSequence(events[..|events| - 1], kind, operator), events[|events| - 1];
      if !Is(last, kind, operator) then before
      else if before.None? || last.sequence < before.value then Some(last.sequence) else before
  }

  /** `_event_index`: the sequence number of the first matching event in the list. */
  function EventIndex(events: seq<Event>, kind: EventKind, operator: string): Option<nat> {
    if events == [] then None
    else if Is(events[0], kind, Some(operator)) then Some(events[0].sequence)
    else EventIndex(events[1..], kind, operator)
  }

  predicate Increasing(events: seq<Event>) {
    forall i, j | 0 <= i < j < |events| :: events[i].sequence < events[j].sequence
  }

  predicate After(later: Option<nat>, earlier: Option<nat>) {
    later.Some? && earlier.Some? ==> earlier.value < later.value
  }

  /** `validate_event_coverage`, the part about events, for a certificate with lineage evidence. */
  ghost predicate Covers(ops: Operators, events: seq<Event>) {
    var approved, result := FirstSequence(events, PlanApproved, None), FirstSequence(events, ResultMaterialized, None);
    var lineage, emitted := FirstSequence(events, LineageRecorded, None), FirstSequence(events, CertificateEmitted, None);
    && Increasing(events)
    && approved.Some? && emitted.Some? && lineage.Some?
    && (forall id | id in ops :: OperatorCovered(events, id, approved, result))
    && After(lineage, result) && After(emitted, result) && After(emitted, lineage)
  }

  predicate OperatorCovered(events: seq<Event>, id: string, approved: Option<nat>, result: Option<nat>) {
    var started, completed := FirstSequence(events, OperatorStarted, Some(id)), FirstSequence(events, OperatorCompleted, Some(id));
    started.Some? && completed.Some? && After(completed, started) && After(started, approved) && After(result, completed)
  }

  /** `validate_operator_dependency_events`: no operator starts before a direct input is complete. */
  ghost predicate RespectsInputs(ops: Operators, events: seq<Event>) {
    forall id, input | id in ops && input in ops[id] ::
      After(EventIndex(events, OperatorStarted, id), EventIndex(events, OperatorCompleted, input))
  }

  // ----- the log -----

  function EventAt(order: seq<string>, k: nat): Event
    requires k < 2 * |order| + 5
  {
    var n := 2 * |order|;
    if k == 0 then Event(k, PlanApproved, None)
    else if k == 1 then Event(k, PolicyDecisionRecorded, None)
    else if k < n + 2 then Event(k, if k % 2 == 0 then OperatorStarted else OperatorCompleted, Some(order[k / 2 - 1]))
    else if k == n + 2 then Event(k, ResultMaterialized, None)
    else if k == n + 3 then Event(k, LineageRecorded, None)
    else Event(k, CertificateEmitted, None)
  }

  function Log(order: seq<string>): seq<Event> {
    seq(2 * |order| + 5, k requires 0 <= k < 2 * |order| + 5 => EventAt(order, k))
  }

  /** `_certificate_events`: the events in order, a running counter for their sequence numbers. */
  method CertificateEvents(order: seq<string>) returns (events: seq<Event>)
    ensures events == Log(order)
  {
    events := [Event(0, PlanApproved, None)];
    events := events + [Event(1, PolicyDecisionRecorded, None)];
    var sequence := 2;
    for i := 0 to |order|
      invariant sequence == 2 + 2 * i && |events| == sequence
      invariant events == Log(order)[..sequence]
    {
      assert (2 + 2 * i) / 2 - 1 == i && (3 + 2 * i) / 2 - 1 == i;
      events := events + [Event(sequence, OperatorStarted, Some(order[i]))];
      sequence := sequence + 1;
      events := events + [Event(sequence, OperatorCompleted, Some(order[i]))];
      sequence := sequence + 1;
    }
    events := events + [Event(sequence, ResultMaterialized, None)];
    sequence := sequence + 1;
    events := events + [Event(sequence, LineageRecorded, None)];
    sequence := sequence + 1;
    events := events + [Event(sequence, CertificateEmitted, None)];
    assert events == Log(order)[..|Log(order)|];
  }

  // ----- finding events -----

  /** The one event of its kind. */
  predicate Only(events: seq<Event>, kind: EventKind, operator: Option<string>, k: nat) {
    && k < |events| && Is(events[k], kind, operator)
    && forall j | 0 <= j < |events| && Is(events[j], kind, operator) :: j == k
  }

  /** The one event of its kind is found by either search. */
  lemma {:induction false} OnlyFirst(events: seq<Event>, kind: EventKind, operator: Option<string>, k: nat)
    requires k < |events| && Is(events[k], kind, operator)
    requires forall j | 0 <= j < |events| && Is(events[j], kind, operator) :: j == k
    ensures FirstSequence(events, kind, operator) == Some(events[k].sequence)
  {
    var n := |events| - 1;
    if k < n { OnlyFirst(events[..n], kind, operator, k); } else { NoFirst(events[..n], kind, operator); }
  }

  lemma {:induction false} NoFirst(events: seq<Event>, kind: EventKind, operator: Option<string>)
    requires forall j | 0 <= j < |events| :: !Is(events[j], kind, operator)
    ensures FirstSequence(events, kind, operator) == None
  {
    if events != [] { NoFirst(events[..|events| - 1], kind, operator); }
  }

  lemma {:induction false} OnlyIndex(events: seq<Event>, kind: EventKind, operator: string, k: nat)
    requires k < |events| && Is(events[k], kind, Some(operator))
    requires forall j | 0 <= j < |events| && Is(events[j], kind, Some(operator)) :: j == k
    ensures EventIndex(events, kind, operator) == Some(events[k].sequence)
  {
    if k > 0 {
      assert !Is(events[0], kind, Some(operator));
      forall j | 0 <= j < |events[1..]| && Is(events[1..][j], kind, Some(operator)) ensures j == k - 1 { assert Is(events[j + 1], kind, Some(operator)); }
      OnlyIndex(events[1..], kind, operator, k - 1);
    }
  }

  /** Where an operator's start (`parity` 0) or completion (`parity` 1) stands in the log. */
  lemma OperatorPlace(order: seq<string>, i: nat, kind: EventKind, k: nat)
    requires DistinctIds(order) && i < |order|
    requires (kind == OperatorStarted && k == 2 + 2 * i) || (kind == OperatorCompleted && k == 3 + 2 * i)
    ensures k < |Log(order)| && Is(Log(order)[k], kind, Some(order[i])) && Log(order)[k].sequence == k
    ensures forall j | 0 <= j < |Log(order)| && Is(Log(order)[j], kind, Some(order[i])) :: j == k
  {
    assert (2 + 2 * i) / 2 - 1 == i && (3 + 2 * i) / 2 - 1 == i;
    forall j | 0 <= j < |Log(order)| && Is(Log(order)[j], kind, Some(order[i])) ensures j == k {
      assert EventAt(order, j).kind == kind;
      assert 2 <= j < 2 * |order| + 2;
      assert order[j / 2 - 1] == order[i];
    }
  }

  lemma PlainPlace(order: seq<string>, kind: EventKind, k: nat)
    requires k < 2 * |order| + 5 && kind == EventAt(order, k).kind && kind != OperatorStarted && kind != OperatorCompleted
    ensures Only(Log(order), kind, None, k) && FirstSequence(Log(order), kind, None) == Some(k)
  {
    forall j | 0 <= j < |Log(order)| && Is(Log(order)[j], kind, None) ensures j == k {
      assert EventAt(order, j).kind == kind;
    }
    OnlyFirst(Log(order), kind, None, k);
  }

  lemma OperatorFirst(order: seq<string>, i: nat)
    requires DistinctIds(order) && i < |order|
    ensures FirstSequence(Log(order), OperatorStarted, Some(order[i])) == Some(2 + 2 * i)
    ensures FirstSequence(Log(order), OperatorCompleted, Some(order[i])) == Some(3 + 2 * i)
    ensures EventIndex(Log(order), OperatorStarted, order[i]) == Some(2 + 2 * i)
    ensures EventIndex(Log(order), OperatorCompleted, order[i]) == Some(3 + 2 * i)
  {
    OperatorPlace(order, i, OperatorStarted, 2 + 2 * i);
    OperatorPlace(order, i, OperatorCompleted, 3 + 2 * i);
    hide Log;
    OnlyFirst(Log(order), OperatorStarted, Some(order[i]), 2 + 2 * i);
    OnlyFirst(Log(order), OperatorCompleted, Some(order[i]), 3 + 2 * i);
    OnlyIndex(Log(order), OperatorStarted, order[i], 2 + 2 * i);
    OnlyIndex(Log(order), OperatorCompleted, order[i], 3 + 2 * i);
  }

  // ----- the log passes, its tampered copy does not -----

  /** The log of a schedule numbers its events 0, 1, 2, ... and passes every check. */
  lemma LogAccepted(ops: Operators, order: seq<string>)
    requires Schedules(ops, order)
    ensures forall k | 0 <= k < |Log(order)| :: Log(order)[k].sequence == k
    ensures Covers(ops, Log(order)) && RespectsInputs(ops, Log(order))
  {
    LogCovers(ops, order);
    forall id, input | id in ops && input in ops[id]
      ensures After(EventIndex(Log(order), OperatorStarted, id), EventIndex(Log(order), OperatorCompleted, input))
    {
      var i, j := InputPlaces(ops, order, id, input);
      OperatorFirst(order, i);
      OperatorFirst(order, j);
    }
  }

  lemma InputPlaces(ops: Operators, order: seq<string>, id: string, input: string) returns (i: nat, j: nat)
    requires Schedules(ops, order) && id in ops && input in ops[id]
    ensures j < i < |order| && order[i] == id && order[j] == input
  {
    assert id in order;
    i :| 0 <= i < |order| && order[i] == id;
    assert InputsBefore(ops, order, i);
    j :| 0 <= j < i && order[..i][j] == input;
  }

  lemma LogCovers(ops: Operators, order: seq<string>)
    requires Schedules(ops, order)
    ensures Covers(ops, Log(order))
  {
    var n := 2 * |order|;
    PlainPlace(order, PlanApproved, 0);
    PlainPlace(order, ResultMaterialized, n + 2);
    PlainPlace(order, LineageRecorded, n + 3);
    PlainPlace(order, CertificateEmitted, n + 4);
    assert Increasing(Log(order));
    forall id | id in ops ensures OperatorCovered(Log(order), id, Some(0), Some(n + 2)) {
      assert id in order;
      var i :| 0 <= i < |order| && order[i] == id;
      OperatorFirst(order, i);
    }
    hide Log, FirstSequence;
  }

  /** Two events exchanged, each with the sequence number of its new place. */
  function Exchanged(events: seq<Event>, i: nat, j: nat): seq<Event>
    requires i < |events| && j < |events|
  {
    events[i := events[j].(sequence := i)][j := events[i].(sequence := j)]
  }

  function SequenceRank(e: Event): (real, real) {
    (e.sequence as real, 0.0)
  }

  method IndexOf(events: seq<Event>, kind: EventKind, operator: string) returns (r: Option<nat>)
    ensures r.Some? ==> r.value < |events| && Is(events[r.value], kind, Some(operator))
    ensures r.None? ==> forall k | 0 <= k < |events| :: !Is(events[k], kind, Some(operator))
  {
    for k := 0 to |events|
      invariant forall j | 0 <= j < k :: !Is(events[j], kind, Some(operator))
    {
      if Is(events[k], kind, Some(operator)) { return Some(k); }
    }
    r := None;
  }

  /** The first scheduled operator with an input. */
  method FirstDependent(ops: Operators, order: seq<string>) returns (r: Option<nat>)
    requires forall i | 0 <= i < |order| :: order[i] in ops
    ensures r.Some? ==> r.value < |order| && ops[order[r.value]] != [] && forall i | 0 <= i < r.value :: ops[order[i]] == []
    ensures r.None? ==> forall i | 0 <= i < |order| :: ops[order[i]] == []
  {
    for k := 0 to |order|
      invariant forall i | 0 <= i < k :: ops[order[i]] == []
    {
      if ops[order[k]] != [] { return Some(k); }
    }
    r := None;
  }

  /** The start of operator `i` and the completion of its input `j` have changed places. */
  ghost predicate TamperedBy(ops: Operators, order: seq<string>, i: nat, j: nat, events: seq<Event>) {
    && j < i < |order| && order[i] in ops && order[j] in ops[order[i]]
    && events == Exchanged(Log(order), 2 + 2 * i, 3 + 2 * j)
  }

  /** `_dependency_tampered_events` on the log of its own schedule: raises exactly when no operator has an input. */
  method TamperedEvents(ops: Operators, order: seq<string>) returns (r: Option<seq<Event>>)
    requires Schedules(ops, order)
    ensures r.None? <==> forall id | id in ops :: ops[id] == []
    ensures r.Some? ==> exists i: nat, j: nat :: TamperedBy(ops, order, i, j, r.value)
  {
    assert forall i | 0 <= i < |order| :: order[i] in order;
    var found := FirstDependent(ops, order);
    if found.None? {
      forall id | id in ops ensures ops[id] == [] { assert id in order; }
      return None;
    }
    ghost var i := found.value;
    var dependent := order[found.value];
    var dependency := ops[dependent][0];
    ghost var p, j := InputPlaces(ops, order, dependent, dependency);
    assert p == i;
    assert DistinctIds(order) && dependency in ops[dependent];
    hide Schedules, InputsBefore, DistinctIds, Exchanged, Log;
    var sorted := ExchangeEvents(order, dependent, dependency, i, j);
    assert TamperedBy(ops, order, i, j, sorted);
    r := Some(sorted);
  }

  /** Finds the start of one operator and the completion of the other, and exchanges them. */
  method ExchangeEvents(order: seq<string>, dependent: string, dependency: string, ghost i: nat, ghost j: nat) returns (sorted: seq<Event>)
    requires DistinctIds(order) && i < |order| && j < |order| && order[i] == dependent && order[j] == dependency
    ensures |Log(order)| == 2 * |order| + 5
    ensures sorted == Exchanged(Log(order), 2 + 2 * i, 3 + 2 * j)
  {
    OperatorPlace(order, i, OperatorStarted, 2 + 2 * i);
    OperatorPlace(order, j, OperatorCompleted, 3 + 2 * j);
    var events := CertificateEvents(order);
    assert |Log(order)| == 2 * |order| + 5;
    hide Log, Exchanged;
    var child := IndexOf(events, OperatorStarted, dependent);
    var completion := IndexOf(events, OperatorCompleted, dependency);
    assert child == Some(2 + 2 * i) && completion == Some(3 + 2 * j);
    sorted := Exchange(order, events, child.value, completion.value);
  }

  /** Swaps two sequence numbers in a copy of the list and sorts it by them. */
  method Exchange(order: seq<string>, events: seq<Event>, a: nat, b: nat) returns (sorted: seq<Event>)
    requires events == Log(order) && a < |events| && b < |events| && a != b
    ensures sorted == Exchanged(events, a, b)
  {
    assert events[a].sequence == a && events[b].sequence == b;
    var changed := events;
    changed := changed[a := events[a].(sequence := events[b].sequence)];
    changed := changed[b := events[b].(sequence := events[a].sequence)];
    sorted := Sort(SequenceRank, changed);
    hide Log;
    ExchangedSorted(order, events, a, b, changed, sorted);
  }

  /** Sorting by sequence number puts each changed event in the other's place. */
  lemma ExchangedSorted(order: seq<string>, events: seq<Event>, a: nat, b: nat, changed: seq<Event>, sorted: seq<Event>)
    requires events == Log(order) && a < |events| && b < |events| && a != b
    requires changed == events[a := events[a].(sequence := b)][b := events[b].(sequence := a)]
    requires Sorted(SequenceRank, sorted) && multiset(sorted) == multiset(changed)
    ensures sorted == Exchanged(events, a, b)
  {
    var target := Exchanged(events, a, b);
    forall k | 0 <= k < |target| ensures target[k].sequence == k { assert events[k].sequence == k; }
    TwoMoved(events, changed, target, a, b);
    hide Log;
    assert Sorted(SequenceRank, target);
    forall x, y | x in target && y in target && SequenceRank(x) == SequenceRank(y) ensures x == y {
      var i :| 0 <= i < |target| && target[i] == x;
      var j :| 0 <= j < |target| && target[j] == y;
    }
    SortedUnique(SequenceRank, target, sorted);
  }

  lemma TwoMoved(events: seq<Event>, changed: seq<Event>, target: seq<Event>, a: nat, b: nat)
    requires |changed| == |target| == |events| && a < |events| && b < |events| && a != b
    requires target == changed[a := changed[b]][b := changed[a]]
    ensures multiset(target) == multiset(changed)
  {}

  /** Where the exchange of `a` and `b` puts what stood at `k`. */
  function MovedTo(k: nat, a: nat, b: nat): nat {
    if k == a then b else if k == b then a else k
  }

  lemma OnlyMoved(events: seq<Event>, a: nat, b: nat, kind: EventKind, operator: Option<string>, k: nat)
    requires a < |events| && b < |events| && a != b && Only(events, kind, operator, k)
    requires forall x | 0 <= x < |events| :: events[x].sequence == x
    ensures FirstSequence(Exchanged(events, a, b), kind, operator) == Some(MovedTo(k, a, b))
  {
    var tampered := Exchanged(events, a, b);
    forall x | 0 <= x < |tampered|
      ensures Is(tampered[x], kind, operator) <==> Is(events[MovedTo(x, a, b)], kind, operator)
      ensures tampered[x].sequence == x
    {}
    OnlyFirst(tampered, kind, operator, MovedTo(k, a, b));
  }

  /** The exchange leaves every operator with a start before its completion, so coverage does not notice it. */
  lemma TamperedCovers(ops: Operators, order: seq<string>, i: nat, j: nat, tampered: seq<Event>)
    requires Schedules(ops, order) && TamperedBy(ops, order, i, j, tampered)
    ensures Covers(ops, tampered)
  {
    var log, n, a, b := Log(order), 2 * |order|, 2 + 2 * i, 3 + 2 * j;
    assert forall x | 0 <= x < |log| :: log[x].sequence == x;
    PlainPlace(order, PlanApproved, 0);
    PlainPlace(order, ResultMaterialized, n + 2);
    PlainPlace(order, LineageRecorded, n + 3);
    PlainPlace(order, CertificateEmitted, n + 4);
    assert |log| == n + 5;
    hide Log, FirstSequence, Only;
    OnlyMoved(log, a, b, PlanApproved, None, 0);
    OnlyMoved(log, a, b, ResultMaterialized, None, n + 2);
    OnlyMoved(log, a, b, LineageRecorded, None, n + 3);
    OnlyMoved(log, a, b, CertificateEmitted, None, n + 4);
    assert Increasing(tampered);
    forall id | id in ops ensures OperatorCovered(tampered, id, Some(0), Some(n + 2)) {
      assert id in order;
      var p :| 0 <= p < |order| && order[p] == id;
      MovedOperatorCovered(order, i, j, p);
    }
  }

  lemma MovedOperatorCovered(order: seq<string>, i: nat, j: nat, p: nat)
    requires DistinctIds(order) && j < i < |order| && p < |order|
    ensures |Log(order)| == 2 * |order| + 5
    ensures OperatorCovered(Exchanged(Log(order), 2 + 2 * i, 3 + 2 * j), order[p], Some(0), Some(2 * |order| + 2))
  {
    var log, a, b := Log(order), 2 + 2 * i, 3 + 2 * j;
    assert forall x | 0 <= x < |log| :: log[x].sequence == x;
    OperatorPlace(order, p, OperatorStarted, 2 + 2 * p);
    OperatorPlace(order, p, OperatorCompleted, 3 + 2 * p);
    assert |log| == 2 * |order| + 5;
    hide Log, FirstSequence, Exchanged;
    OnlyMoved(log, a, b, OperatorStarted, Some(order[p]), 2 + 2 * p);
    OnlyMoved(log, a, b, OperatorCompleted, Some(order[p]), 3 + 2 * p);
  }

  /** The exchange keeps the numbers contiguous and every operator covered, so only the dependency check can notice; and
      it always does. */
  lemma TamperedRejected(ops: Operators, order: seq<string>, i: nat, j: nat, tampered: seq<Event>)
    requires Schedules(ops, order) && TamperedBy(ops, order, i, j, tampered)
    ensures forall k | 0 <= k < |tampered| :: tampered[k].sequence == k
    ensures Covers(ops, tampered) && !RespectsInputs(ops, tampered)
  {
    TamperedCovers(ops, order, i, j, tampered);
    hide Covers;
    var log := Log(order);
    var a, b := 2 + 2 * i, 3 + 2 * j;
    OperatorPlace(order, i, OperatorStarted, a);
    OperatorPlace(order, j, OperatorCompleted, b);
    forall k | 0 <= k < |tampered| ensures tampered[k].sequence == k { assert log[k].sequence == k; }
    hide Log;
    assert forall k | 0 <= k < |log| && k != a && k != b :: tampered[k] == log[k];
    OnlyIndex(tampered, OperatorStarted, order[i], b);
    OnlyIndex(tampered, OperatorCompleted, order[j], a);
    assert !After(EventIndex(tampered, OperatorStarted, order[i]), EventIndex(tampered, OperatorCompleted, order[j]));
  }

  // ----- what the checks notice -----

  lemma OnlyMovedIndex(events: seq<Event>, a: nat, b: nat, kind: EventKind, operator: string, k: nat)
    requires a < |events| && b < |events| && a != b && Only(events, kind, Some(operator), k)
    requires forall x | 0 <= x < |events| :: events[x].sequence == x
    ensures EventIndex(Exchanged(events, a, b), kind, operator) == Some(MovedTo(k, a, b))
  {
    var tampered := Exchanged(events, a, b);
    forall x | 0 <= x < |tampered|
      ensures Is(tampered[x], kind, Some(operator)) <==> Is(events[MovedTo(x, a, b)], kind, Some(operator))
      ensures tampered[x].sequence == x
    {}
    OnlyIndex(tampered, kind, operator, MovedTo(k, a, b));
  }

  /** Where the events of the operator at `i` stand after the exchange. */
  predicate StaysInPlace(n: nat, a: nat, b: nat, i: nat) {
    MovedTo(0, a, b) < MovedTo(2 + 2 * i, a, b) < MovedTo(3 + 2 * i, a, b) < MovedTo(2 * n + 2, a, b)
  }

  predicate EndsInOrder(n: nat, a: nat, b: nat) {
    MovedTo(2 * n + 2, a, b) < MovedTo(2 * n + 3, a, b) < MovedTo(2 * n + 4, a, b)
  }

  predicate StaysAfter(a: nat, b: nat, j: nat, i: nat) {
    MovedTo(3 + 2 * j, a, b) < MovedTo(2 + 2 * i, a, b)
  }

  /** Exchanging any two events of the log: coverage accepts the result exactly when every start is still between the
      approval and its completion, every completion before the result, and result, lineage and certificate in order; the
      dependency check exactly when every completion is still before the starts that wait for it. */
  lemma ExchangeExact(ops: Operators, order: seq<string>, a: nat, b: nat)
    requires Schedules(ops, order) && a < 2 * |order| + 5 && b < 2 * |order| + 5 && a != b
    ensures Covers(ops, Exchanged(Log(order), a, b))
            <==> EndsInOrder(|order|, a, b) && forall i | 0 <= i < |order| :: StaysInPlace(|order|, a, b, i)
    ensures RespectsInputs(ops, Exchanged(Log(order), a, b))
            <==> forall i, j | 0 <= j < i < |order| && order[i] in ops && order[j] in ops[order[i]] :: StaysAfter(a, b, j, i)
  {
    hide Log, FirstSequence, EventIndex, Exchanged, Increasing, InputsBefore, MovedTo, Is, Schedules;
    CoversEach(ops, order, a, b);
    RespectsEach(ops, order, a, b);
  }

  lemma CoversEach(ops: Operators, order: seq<string>, a: nat, b: nat)
    requires Schedules(ops, order) && a < 2 * |order| + 5 && b < 2 * |order| + 5 && a != b
    ensures Covers(ops, Exchanged(Log(order), a, b))
            <==> EndsInOrder(|order|, a, b) && forall i | 0 <= i < |order| :: StaysInPlace(|order|, a, b, i)
  {
    var tampered := Exchanged(Log(order), a, b);
    var approved, result := FirstSequence(tampered, PlanApproved, None), FirstSequence(tampered, ResultMaterialized, None);
    PlainMoved(order, a, b);
    assert DistinctIds(order);
    forall i | 0 <= i < |order| ensures OperatorCovered(tampered, order[i], approved, result) <==> StaysInPlace(|order|, a, b, i) {
      OperatorMoved(order, a, b, i);
      hide Log, FirstSequence, Exchanged, Increasing, MovedTo;
    }
    hide Log, FirstSequence, Exchanged, Increasing, MovedTo, StaysInPlace, OperatorCovered;
    assert (forall id | id in ops :: OperatorCovered(tampered, id, approved, result))
           <==> forall i | 0 <= i < |order| :: OperatorCovered(tampered, order[i], approved, result) by {
      forall i | 0 <= i < |order| ensures order[i] in ops { assert order[i] in order; }
    }
  }

  lemma RespectsEach(ops: Operators, order: seq<string>, a: nat, b: nat)
    requires Schedules(ops, order) && a < 2 * |order| + 5 && b < 2 * |order| + 5 && a != b
    ensures RespectsInputs(ops, Exchanged(Log(order), a, b))
            <==> forall i, j | 0 <= j < i < |order| && order[i] in ops && order[j] in ops[order[i]] :: StaysAfter(a, b, j, i)
  {
    var tampered := Exchanged(Log(order), a, b);
    assert DistinctIds(order);
    forall i, j | 0 <= i < |order| && 0 <= j < |order|
      ensures After(EventIndex(tampered, OperatorStarted, order[i]), EventIndex(tampered, OperatorCompleted, order[j])) <==> StaysAfter(a, b, j, i)
    {
      OperatorMoved(order, a, b, i);
      OperatorMoved(order, a, b, j);
      hide Log, EventIndex, FirstSequence, Exchanged, MovedTo;
    }
    hide Log, EventIndex, FirstSequence, Exchanged, MovedTo, StaysAfter, After, InputsBefore;
    if forall i, j | 0 <= j < i < |order| && order[i] in ops && order[j] in ops[order[i]] :: StaysAfter(a, b, j, i) {
      forall id, input | id in ops && input in ops[id]
        ensures After(EventIndex(tampered, OperatorStarted, id), EventIndex(tampered, OperatorCompleted, input)) {
        var i, j := InputPlaces(ops, order, id, input);
        assert StaysAfter(a, b, j, i);
      }
    }
  }

  lemma PlainMoved(order: seq<string>, a: nat, b: nat)
    requires a < 2 * |order| + 5 && b < 2 * |order| + 5 && a != b
    ensures var tampered, n := Exchanged(Log(order), a, b), 2 * |order|;
            && Increasing(tampered)
            && FirstSequence(tampered, PlanApproved, None) == Some(MovedTo(0, a, b))
            && FirstSequence(tampered, ResultMaterialized, None) == Some(MovedTo(n + 2, a, b))
            && FirstSequence(tampered, LineageRecorded, None) == Some(MovedTo(n + 3, a, b))
            && FirstSequence(tampered, CertificateEmitted, None) == Some(MovedTo(n + 4, a, b))
  {
    var log, n := Log(order), 2 * |order|;
    assert forall x | 0 <= x < |log| :: log[x].sequence == x;
    PlainPlace(order, PlanApproved, 0);
    PlainPlace(order, ResultMaterialized, n + 2);
    PlainPlace(order, LineageRecorded, n + 3);
    PlainPlace(order, CertificateEmitted, n + 4);
    hide Log, FirstSequence, Only;
    OnlyMoved(log, a, b, PlanApproved, None, 0);
    OnlyMoved(log, a, b, ResultMaterialized, None, n + 2);
    OnlyMoved(log, a, b, LineageRecorded, None, n + 3);
    OnlyMoved(log, a, b, CertificateEmitted, None, n + 4);
  }

  lemma OperatorMoved(order: seq<string>, a: nat, b: nat, i: nat)
    requires DistinctIds(order) && a < 2 * |order| + 5 && b < 2 * |order| + 5 && a != b && i < |order|
    ensures var tampered := Exchanged(Log(order), a, b);
            && FirstSequence(tampered, OperatorStarted, Some(order[i])) == Some(MovedTo(2 + 2 * i, a, b))
            && FirstSequence(tampered, OperatorCompleted, Some(order[i])) == Some(MovedTo(3 + 2 * i, a, b))
            && EventIndex(tampered, OperatorStarted, order[i]) == Some(MovedTo(2 + 2 * i, a, b))
            && EventIndex(tampered, OperatorCompleted, order[i]) == Some(MovedTo(3 + 2 * i, a, b))
            && FirstSequence(tampered, PlanApproved, None) == Some(MovedTo(0, a, b))
            && FirstSequence(tampered, ResultMaterialized, None) == Some(MovedTo(2 * |order| + 2, a, b))
  {
    var log := Log(order);
    PlainMoved(order, a, b);
    assert forall x | 0 <= x < |log| :: log[x].sequence == x;
    OperatorPlace(order, i, OperatorStarted, 2 + 2 * i);
    OperatorPlace(order, i, OperatorCompleted, 3 + 2 * i);
    hide Log, FirstSequence, EventIndex, Exchanged;
    OnlyMoved(log, a, b, OperatorStarted, Some(order[i]), 2 + 2 * i);
    OnlyMoved(log, a, b, OperatorCompleted, Some(order[i]), 3 + 2 * i);
    OnlyMovedIndex(log, a, b, OperatorStarted, order[i], 2 + 2 * i);
    OnlyMovedIndex(log, a, b, OperatorCompleted, order[i], 3 + 2 * i);
  }

  function Dropped(events: seq<Event>, k: nat): seq<Event>
    requires k < |events|
  {
    events[..k] + events[k + 1..]
  }

  lemma OnlyKept(events: seq<Event>, k: nat, kind: EventKind, operator: Option<string>, p: nat)
    requires k < |events| && Only(events, kind, operator, p)
    ensures FirstSequence(Dropped(events, k), kind, operator) == if p == k then None else Some(events[p].sequence)
  {
    var rest := Dropped(events, k);
    forall j | 0 <= j < |rest| ensures Is(rest[j], kind, operator) <==> (if j < k then j else j + 1) == p {}
    if p == k { NoFirst(rest, kind, operator); } else { OnlyFirst(rest, kind, operator, if p < k then p else p - 1); }
  }

  /** Leaving one event out of the log is noticed by the coverage check, unless it is the policy decision or the result. */
  lemma DroppedExact(ops: Operators, order: seq<string>, k: nat)
    requires Schedules(ops, order) && k < 2 * |order| + 5
    ensures Covers(ops, Dropped(Log(order), k)) <==> k == 1 || k == 2 * |order| + 2
  {
    var rest := Dropped(Log(order), k);
    var approved, result := FirstSequence(rest, PlanApproved, None), FirstSequence(rest, ResultMaterialized, None);
    assert DistinctIds(order);
    PlainKept(order, k);
    hide Log, FirstSequence, Dropped, Increasing, InputsBefore, OperatorCovered;
    forall i | 0 <= i < |order|
      ensures order[i] in ops
      ensures k == 2 + 2 * i || k == 3 + 2 * i ==> !OperatorCovered(rest, order[i], approved, result)
      ensures k == 1 || k == 2 * |order| + 2 ==> OperatorCovered(rest, order[i], approved, result)
    {
      assert order[i] in order;
      KeptCovered(order, k, i);
    }
    if 2 <= k < 2 * |order| + 2 { assert !OperatorCovered(rest, order[k / 2 - 1], approved, result); }
    if k == 1 || k == 2 * |order| + 2 {
      forall id | id in ops ensures OperatorCovered(rest, id, approved, result) {
        assert id in order;
        var i :| 0 <= i < |order| && order[i] == id;
      }
    }
  }

  function Unless(dropped: bool, sequence: nat): Option<nat> {
    if dropped then None else Some(sequence)
  }

  lemma DroppedIncreasing(events: seq<Event>, k: nat)
    requires k < |events| && Increasing(events)
    ensures Increasing(Dropped(events, k))
  {}

  lemma PlainKept(order: seq<string>, k: nat)
    requires k < 2 * |order| + 5
    ensures var rest, n := Dropped(Log(order), k), 2 * |order|;
            && Increasing(rest)
            && FirstSequence(rest, PlanApproved, None) == Unless(k == 0, 0)
            && FirstSequence(rest, ResultMaterialized, None) == Unless(k == n + 2, n + 2)
            && FirstSequence(rest, LineageRecorded, None) == Unless(k == n + 3, n + 3)
            && FirstSequence(rest, CertificateEmitted, None) == Unless(k == n + 4, n + 4)
  {
    var log, n := Log(order), 2 * |order|;
    assert forall x | 0 <= x < |log| :: log[x].sequence == x;
    PlainPlace(order, PlanApproved, 0);
    PlainPlace(order, ResultMaterialized, n + 2);
    PlainPlace(order, LineageRecorded, n + 3);
    PlainPlace(order, CertificateEmitted, n + 4);
    DroppedIncreasing(log, k);
    assert |log| == n + 5;
    hide Log, FirstSequence, Only, Dropped, Increasing, Is;
    OnlyKept(log, k, PlanApproved, None, 0);
    OnlyKept(log, k, ResultMaterialized, None, n + 2);
    OnlyKept(log, k, LineageRecorded, None, n + 3);
    OnlyKept(log, k, CertificateEmitted, None, n + 4);
  }

  lemma KeptCovered(order: seq<string>, k: nat, i: nat)
    requires DistinctIds(order) && i < |order| && k < 2 * |order| + 5
    ensures var rest := Dropped(Log(order), k);
            var approved, result := FirstSequence(rest, PlanApproved, None), FirstSequence(rest, ResultMaterialized, None);
            && (k == 2 + 2 * i || k == 3 + 2 * i ==> !OperatorCovered(rest, order[i], approved, result))
            && (k == 1 || k == 2 * |order| + 2 ==> OperatorCovered(rest, order[i], approved, result))
  {
    PlainKept(order, k);
    OperatorKept(order, k, i);
    hide Log, FirstSequence, Dropped, Increasing;
  }

  lemma OperatorKept(order: seq<string>, k: nat, i: nat)
    requires DistinctIds(order) && i < |order| && k < 2 * |order| + 5
    ensures |Log(order)| == 2 * |order| + 5
    ensures var rest := Dropped(Log(order), k);
            && FirstSequence(rest, OperatorStarted, Some(order[i])) == (if k == 2 + 2 * i then None else Some(2 + 2 * i))
            && FirstSequence(rest, OperatorCompleted, Some(order[i])) == (if k == 3 + 2 * i then None else Some(3 + 2 * i))
  {
    assert |Log(order)| == 2 * |order| + 5;
    OperatorPlace(order, i, OperatorStarted, 2 + 2 * i);
    OperatorPlace(order, i, OperatorCompleted, 3 + 2 * i);
    hide Log, FirstSequence, Dropped;
    OnlyKept(Log(order), k, OperatorStarted, Some(order[i]), 2 + 2 * i);
    OnlyKept(Log(order), k, OperatorCompleted, Some(order[i]), 3 + 2 * i);
  }
}
