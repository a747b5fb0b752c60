/** Layered scheduling of physical operators. */
module Scheduling {
  import opened Wrappers
  import opened Ordering
  import Cardinality

  /** Physical operators by id, each with its inputs. */
  type Operators = map<string, seq<string>>

  predicate DistinctIds(order: seq<string>) {
    forall i, j | 0 <= i < j < |order| :: order[i] != order[j]
  }

  predicate InputsBefore(ops: Operators, order: seq<string>, i: nat)
    requires i < |order|
  {
    order[i] in ops && forall input | input in ops[order[i]] :: input in order[..i]
  }

  /** Every operator once, after all its inputs. */
  ghost predicate Schedules(ops: Operators, order: seq<string>) {
    && DistinctIds(order)
    && (forall id :: id in order <==> id in ops)
    && (forall i | 0 <= i < |order| :: InputsBefore(ops, order, i))
  }

  function IdSet(ids: seq<string>): set<string> {
    set id | id in ids
  }

  /** The operators whose inputs are all done. */
  function ReadyNow(ops: Operators, remaining: set<string>, completed: set<string>): set<string>
    requires remaining <= ops.Keys
  {
    set id | id in remaining && IdSet(ops[id]) <= completed
  }

  /** Part of a schedule: what is in it comes after its inputs. */
  ghost predicate Started(ops: Operators, order: seq<string>, completed: set<string>, remaining: set<string>) {
    && DistinctIds(order) && completed == IdSet(order) && remaining == ops.Keys - completed
    && (forall i | 0 <= i < |order| :: InputsBefore(ops, order, i))
  }

  lemma StartedAppend(ops: Operators, order: seq<string>, completed: set<string>, remaining: set<string>, id: string)
    requires Started(ops, order, completed, remaining) && id in remaining && IdSet(ops[id]) <= completed
    ensures Started(ops, order + [id], completed + {id}, remaining - {id})
  {
    var longer := order + [id];
    assert id !in completed && forall x | x in order :: x in completed;
    forall i | 0 <= i < |longer| ensures InputsBefore(ops, longer, i) {
      if i < |order| {
        assert longer[..i] == order[..i] && InputsBefore(ops, order, i);
      } else {
        assert longer[..i] == order;
        forall input | input in ops[id] ensures input in order { assert input in IdSet(ops[id]); }
      }
    }
  }

  /** If any schedule exists, something is always ready: the first remaining operator of that schedule. */
  lemma NeverStuck(ops: Operators, schedule: seq<string>, order: seq<string>, completed: set<string>, remaining: set<string>)
    requires Schedules(ops, schedule) && Started(ops, order, completed, remaining) && remaining != {}
    ensures ReadyNow(ops, remaining, completed) != {}
  {
    var some :| some in remaining;
    assert some in schedule;
    var k := FirstRemaining(schedule, remaining, some);
    assert InputsBefore(ops, schedule, k);
    forall input | input in ops[schedule[k]] ensures input in completed {
      var j :| 0 <= j < k && schedule[..k][j] == input;
      assert schedule[j] in schedule;
    }
    assert schedule[k] in ReadyNow(ops, remaining, completed);
  }

  lemma FirstRemaining(schedule: seq<string>, remaining: set<string>, some: string) returns (k: nat)
    requires some in schedule && some in remaining
    ensures k < |schedule| && schedule[k] in remaining && forall j | 0 <= j < k :: schedule[j] !in remaining
  {
    k := 0;
    while schedule[k] !in remaining
      invariant k < |schedule| && some in schedule[k..]
      invariant forall j | 0 <= j < k :: schedule[j] !in remaining
      decreases |schedule| - k
    {
      assert schedule[k..] == [schedule[k]] + schedule[k + 1..];
      k := k + 1;
    }
  }

  // ----- layers -----

  /** The rest of a schedule, layer by layer: all that is ready, by id, then the layers after it. */
  ghost predicate Layers(ops: Operators, completed: set<string>, remaining: set<string>, rest: seq<string>)
    requires remaining <= ops.Keys
    decreases |remaining|
  {
    if remaining == {} then rest == []
    else
      var ready := ReadyNow(ops, remaining, completed);
      ready != {} && exists n: nat | n <= |rest| :: IsLayer(ready, rest[..n]) && LayersAfter(ops, completed, remaining, ready, rest[n..])
  }

  predicate IsLayer(ready: set<string>, layer: seq<string>) {
    Increasing(layer) && IdSet(layer) == ready
  }

  ghost predicate LayersAfter(ops: Operators, completed: set<string>, remaining: set<string>, ready: set<string>, rest: seq<string>)
    requires remaining <= ops.Keys && ready <= remaining && ready != {}
    decreases |remaining|, 0
  {
    Cardinality.ProperSubset(remaining - ready, remaining);
    Layers(ops, completed + ready, remaining - ready, rest)
  }

  /** There is one way to lay out the layers, so the order is determined by the operators. */
  lemma {:induction false} LayersUnique(ops: Operators, completed: set<string>, remaining: set<string>, a: seq<string>, b: seq<string>)
    requires remaining <= ops.Keys && Layers(ops, completed, remaining, a) && Layers(ops, completed, remaining, b)
    ensures a == b
    decreases |remaining|
  {
    if remaining != {} {
      var ready := ReadyNow(ops, remaining, completed);
      var n := FirstLayer(ops, completed, remaining, ready, a);
      var k := FirstLayer(ops, completed, remaining, ready, b);
      hide ReadyNow, IsLayer, Layers, IdSet;
      SameLayer(ready, a[..n], b[..k]);
      LayersUnique(ops, completed + ready, remaining - ready, a[n..], b[k..]);
      SplitAlike(a, n, b, k);
    }
  }

  lemma SplitAlike(a: seq<string>, n: nat, b: seq<string>, k: nat)
    requires n <= |a| && k <= |b| && a[..n] == b[..k] && a[n..] == b[k..]
    ensures a == b
  {
    assert a == a[..n] + a[n..] && b == b[..k] + b[k..];
  }

  lemma FirstLayer(ops: Operators, completed: set<string>, remaining: set<string>, ready: set<string>, rest: seq<string>)
    returns (n: nat)
    requires remaining <= ops.Keys && remaining != {} && ready == ReadyNow(ops, remaining, completed)
    requires Layers(ops, completed, remaining, rest)
    ensures ready != {} && ready <= remaining && |remaining - ready| < |remaining|
    ensures n <= |rest| && IsLayer(ready, rest[..n]) && Layers(ops, completed + ready, remaining - ready, rest[n..])
  {
    Cardinality.ProperSubset(remaining - ready, remaining);
    hide ReadyNow, IsLayer;
    n :| n <= |rest| && IsLayer(ready, rest[..n]) && LayersAfter(ops, completed, remaining, ready, rest[n..]);
  }

  lemma SameLayer(ready: set<string>, a: seq<string>, b: seq<string>)
    requires IsLayer(ready, a) && IsLayer(ready, b)
    ensures a == b
  {
    forall x ensures x in a <==> x in b { assert x in IdSet(a) <==> x in IdSet(b); }
    hide Increasing;
    IncreasingUnique(a, b);
  }

  /** What stands in front of the layers still to come makes them the layers from the start. */
  ghost predicate LeadsTo(ops: Operators, order: seq<string>, completed: set<string>, remaining: set<string>)
    requires remaining <= ops.Keys
  {
    forall rest :: Layers(ops, completed, remaining, rest) ==> Layers(ops, {}, ops.Keys, order + rest)
  }

  lemma LayerLeads(ops: Operators, order: seq<string>, completed: set<string>, remaining: set<string>, ready: set<string>, layer: seq<string>)
    requires remaining <= ops.Keys && remaining != {} && ready == ReadyNow(ops, remaining, completed) && ready != {}
    requires LeadsTo(ops, order, completed, remaining) && IsLayer(ready, layer)
    ensures LeadsTo(ops, order + layer, completed + ready, remaining - ready)
  {
    forall rest | Layers(ops, completed + ready, remaining - ready, rest) ensures Layers(ops, {}, ops.Keys, order + layer + rest) {
      assert (layer + rest)[..|layer|] == layer && (layer + rest)[|layer|..] == rest;
      assert LayersAfter(ops, completed, remaining, ready, rest);
      assert Layers(ops, completed, remaining, layer + rest);
      assert order + (layer + rest) == order + layer + rest;
    }
  }

  /** `_topological_operators`: a schedule if there is one, the layers of ready operators by id; `None` (it raises) exactly
      when there is none. */
  method TopologicalOperators(ops: Operators) returns (r: Option<seq<string>>)
    ensures r.Some? ==> Schedules(ops, r.value) && Layers(ops, {}, ops.Keys, r.value)
    ensures r.None? <==> !exists schedule :: Schedules(ops, schedule)
  {
    var remaining, completed, order: seq<string> := ops.Keys, {}, [];
    hide Schedules;
    assert LeadsTo(ops, order, completed, remaining) by {
      forall rest: seq<string> ensures [] + rest == rest {}
    }
    while remaining != {}
      invariant Started(ops, order, completed, remaining)
      invariant LeadsTo(ops, order, completed, remaining)
      decreases |remaining|
    {
      var ready := ReadyNow(ops, remaining, completed);
      if ready == {} {
        forall schedule ensures !Schedules(ops, schedule) {
          if Schedules(ops, schedule) { NeverStuck(ops, schedule, order, completed, remaining); }
        }
        return None;
      }
      ghost var former, done, before := order, completed, remaining;
      ghost var layer;
      order, completed, remaining, layer := Layer(ops, order, completed, remaining, ready);
      LayerLeads(ops, former, done, before, ready, layer);
      Cardinality.ProperSubset(remaining, before);
    }
    Complete(ops, order, completed, remaining);
    assert Layers(ops, completed, remaining, []) && order + [] == order;
    r := Some(order);
  }

  lemma Complete(ops: Operators, order: seq<string>, completed: set<string>, remaining: set<string>)
    requires Started(ops, order, completed, remaining) && remaining == {}
    ensures Schedules(ops, order)
  {
    forall id ensures id in order <==> id in ops {
      if id in ops { assert id !in remaining; }
      if id in order {
        var i :| 0 <= i < |order| && order[i] == id;
        assert InputsBefore(ops, order, i);
      }
    }
  }

  /** One layer: the ready operators by id. */
  method Layer(ops: Operators, order: seq<string>, completed: set<string>, remaining: set<string>, ready: set<string>)
    returns (order': seq<string>, completed': set<string>, remaining': set<string>, ghost layer: seq<string>)
    requires Started(ops, order, completed, remaining) && ready != {} && remaining <= ops.Keys
    requires ready == ReadyNow(ops, remaining, completed)
    ensures Started(ops, order', completed', remaining') && remaining' < remaining
    ensures IsLayer(ready, layer) && order' == order + layer && completed' == completed + ready && remaining' == remaining - ready
  {
    var sorted := SortKeys(ready);
    layer := sorted;
    SortedDistinct(sorted);
    order', completed', remaining' := order, completed, remaining;
    hide Started;
    for k := 0 to |sorted|
      invariant Started(ops, order', completed', remaining') && completed <= completed'
      invariant remaining' == remaining - IdSet(sorted[..k])
      invariant order' == order + sorted[..k] && completed' == completed + IdSet(sorted[..k])
    {
      var id := sorted[k];
      assert id in sorted && id !in sorted[..k];
      StartedAppend(ops, order', completed', remaining', id);
      assert sorted[..k + 1] == sorted[..k] + [id];
      order', completed', remaining' := order' + [id], completed' + {id}, remaining' - {id};
    }
    assert sorted[..|sorted|] == sorted;
    var some :| some in ready;
    assert some in sorted && some in remaining;
  }

  lemma SortedDistinct(sorted: seq<string>)
    requires Increasing(sorted)
    ensures DistinctIds(sorted)
  {
    forall i, j | 0 <= i < j < |sorted| ensures sorted[i] != sorted[j] { LessIrreflexive(sorted[i]); }
  }
}
