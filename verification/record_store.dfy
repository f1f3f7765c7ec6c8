/** The generic record store the aggregates persist through: rows keyed by
    record keys, written and deleted one step at a time. A cascade is a
    sequence of steps executed in order; it stops at the first step that
    fails and leaves the earlier steps applied (there is no transaction). */
module RecordStore {
  import opened Common

  /** Write `row` under `key`, or delete the row under `key`. */
  datatype Step<K, R> = Put(key: K, row: R) | Remove(key: K)

  /** The rows after a cascade, and whether every step succeeded. */
  datatype Ran<K, R> = Ran(records: map<K, R>, outcome: Outcome)

  /** One step after the previous ones. Writing always succeeds; deleting a
      record that has no row fails with `NotSaved` (a record counts as saved
      exactly when its row is present). After a failure nothing is applied. */
  function Then<K, R>(ran: Ran<K, R>, step: Step<K, R>): (r: Ran<K, R>)
    ensures ran.outcome.Fail? ==> r == ran
    ensures ran.outcome.Pass? && step.Put? ==> r == Ran(ran.records[step.key := step.row], Pass)
    ensures ran.outcome.Pass? && step.Remove? ==>
              r == if step.key in ran.records then Ran(ran.records - {step.key}, Pass)
                   else Ran(ran.records, Fail(NotSaved))
  {
    if ran.outcome.Fail? then ran
    else match step
      case Put(k, row) => Ran(ran.records[k := row], Pass)
      case Remove(k) =>
        if k in ran.records then Ran(ran.records - {k}, Pass) else Ran(ran.records, Fail(NotSaved))
  }

  /** The steps, applied in order to `ran`. */
  function RunFrom<K, R>(ran: Ran<K, R>, steps: seq<Step<K, R>>): Ran<K, R>
    decreases |steps|
  {
    if steps == [] then ran else RunFrom(Then(ran, steps[0]), steps[1..])
  }

  /** The steps, applied in order to the rows `m`. */
  function Run<K, R>(m: map<K, R>, steps: seq<Step<K, R>>): Ran<K, R> {
    RunFrom(Ran(m, Pass), steps)
  }

  /** The keys the steps touch. */
  function KeysOf<K, R>(steps: seq<Step<K, R>>): set<K> {
    set i | 0 <= i < |steps| :: steps[i].key
  }

  /** Every step deletes, and no key is deleted twice. */
  predicate DistinctRemoves<K(==), R>(steps: seq<Step<K, R>>) {
    (forall i :: 0 <= i < |steps| ==> steps[i].Remove?) &&
    (forall i, j :: 0 <= i < j < |steps| ==> steps[i].key != steps[j].key)
  }

  /** Once a cascade has failed, the remaining steps change nothing. */
  lemma {:induction false} RunFromFailed<K, R>(ran: Ran<K, R>, steps: seq<Step<K, R>>)
    requires ran.outcome.Fail?
    ensures RunFrom(ran, steps) == ran
    decreases |steps|
  {
    if steps != [] {
      RunFromFailed(Then(ran, steps[0]), steps[1..]);
    }
  }

  lemma KeysOfCons<K, R>(steps: seq<Step<K, R>>)
    requires steps != []
    ensures KeysOf(steps) == {steps[0].key} + KeysOf(steps[1..])
  {
    var rest := steps[1..];
    forall x | x in KeysOf(steps) ensures x in {steps[0].key} + KeysOf(rest) {
      var i :| 0 <= i < |steps| && steps[i].key == x;
      if i > 0 { assert rest[i - 1].key == x; }
    }
    forall x | x in KeysOf(rest) ensures x in KeysOf(steps) {
      var i :| 0 <= i < |rest| && rest[i].key == x;
      assert steps[i + 1].key == x;
    }
  }

  lemma DistinctRemovesCons<K, R>(steps: seq<Step<K, R>>)
    requires steps != [] && DistinctRemoves(steps)
    ensures DistinctRemoves(steps[1..]) && steps[0].Remove?
    ensures steps[0].key !in KeysOf(steps[1..])
  {
    var rest := steps[1..];
    forall i | 0 <= i < |rest| ensures rest[i].key != steps[0].key {
      assert rest[i] == steps[i + 1];
    }
  }

  /** A cascade of deletions succeeds exactly when every row it deletes is
      present, and then it removes exactly those rows. */
  lemma {:induction false} RunFromRemoves<K, R>(ran: Ran<K, R>, steps: seq<Step<K, R>>)
    requires ran.outcome.Pass?
    requires DistinctRemoves(steps)
    ensures RunFrom(ran, steps).outcome.Pass? <==> KeysOf(steps) <= ran.records.Keys
    ensures RunFrom(ran, steps).outcome.Pass? ==>
              RunFrom(ran, steps).records == ran.records - KeysOf(steps)
    decreases |steps|
  {
    if steps == [] {
      assert KeysOf(steps) == {};
    } else {
      var k, rest := steps[0].key, steps[1..];
      KeysOfCons(steps);
      DistinctRemovesCons(steps);
      var next := Then(ran, steps[0]);
      if k in ran.records {
        RunFromRemoves(next, rest);
        assert ran.records - {k} - KeysOf(rest) == ran.records - KeysOf(steps);
      } else {
        RunFromFailed(next, rest);
      }
    }
  }

  /** A cascade of deletions that fails has stopped at the first absent row
      `n`: the rows before it are deleted, the others are untouched. */
  lemma {:induction false} RunFromRemovesFails<K, R>(ran: Ran<K, R>, steps: seq<Step<K, R>>)
    requires ran.outcome.Pass?
    requires DistinctRemoves(steps)
    requires RunFrom(ran, steps).outcome.Fail?
    ensures RunFrom(ran, steps).outcome == Fail(NotSaved)
    ensures exists n :: 0 <= n < |steps| && steps[n].key !in ran.records &&
                        KeysOf(steps[..n]) <= ran.records.Keys &&
                        RunFrom(ran, steps).records == ran.records - KeysOf(steps[..n])
    decreases |steps|
  {
    var k, rest := steps[0].key, steps[1..];
    DistinctRemovesCons(steps);
    var next := Then(ran, steps[0]);
    if k in ran.records {
      RunFromRemovesFails(next, rest);
      var n :| 0 <= n < |rest| && rest[n].key !in next.records &&
               KeysOf(rest[..n]) <= next.records.Keys &&
               RunFrom(next, rest).records == next.records - KeysOf(rest[..n]);
      var prefix := steps[..n + 1];
      assert prefix[0] == steps[0] && prefix[1..] == rest[..n];
      KeysOfCons(prefix);
      assert steps[n + 1].key == rest[n].key;
      assert ran.records - {k} - KeysOf(rest[..n]) == ran.records - KeysOf(prefix);
    } else {
      RunFromFailed(next, rest);
      assert KeysOf(steps[..0]) == {};
      assert ran.records - KeysOf(steps[..0]) == ran.records;
    }
  }

  /** `RunFromRemoves`, from the rows `m`. */
  lemma RunRemoves<K, R>(m: map<K, R>, steps: seq<Step<K, R>>)
    requires DistinctRemoves(steps)
    ensures Run(m, steps).outcome.Pass? <==> KeysOf(steps) <= m.Keys
    ensures Run(m, steps).outcome.Pass? ==> Run(m, steps).records == m - KeysOf(steps)
    ensures Run(m, steps).outcome.Fail? ==>
              Run(m, steps).outcome == Fail(NotSaved) &&
              exists n :: 0 <= n < |steps| && steps[n].key !in m &&
                          KeysOf(steps[..n]) <= m.Keys &&
                          Run(m, steps).records == m - KeysOf(steps[..n])
  {
    RunFromRemoves(Ran(m, Pass), steps);
    if Run(m, steps).outcome.Fail? {
      RunFromRemovesFails(Ran(m, Pass), steps);
    }
  }

  /** The deletions of `keys`, in order. */
  function Removals<K, R>(keys: seq<K>): (r: seq<Step<K, R>>)
    ensures |r| == |keys| && forall i :: 0 <= i < |keys| ==> r[i] == Remove(keys[i])
  {
    seq(|keys|, i requires 0 <= i < |keys| => Remove(keys[i]))
  }

  /** `RunRemoves` for the deletions of distinct keys: the cascade succeeds
      exactly when every key has a row, and then removes exactly those rows;
      otherwise it fails at the first key `keys[n]` without a row, after
      removing the rows of the keys before it. */
  lemma RunRemovals<K, R>(m: map<K, R>, keys: seq<K>)
    requires forall i, j :: 0 <= i < j < |keys| ==> keys[i] != keys[j]
    ensures Run(m, Removals<K, R>(keys)).outcome.Pass? <==> forall k :: k in keys ==> k in m
    ensures Run(m, Removals<K, R>(keys)).outcome.Pass? ==>
              Run(m, Removals<K, R>(keys)).records == m - (set k | k in keys)
    ensures Run(m, Removals<K, R>(keys)).outcome.Fail? ==>
              Run(m, Removals<K, R>(keys)).outcome == Fail(NotSaved) &&
              exists n :: 0 <= n < |keys| && keys[n] !in m &&
                          (forall k :: k in keys[..n] ==> k in m) &&
                          Run(m, Removals<K, R>(keys)).records == m - (set k | k in keys[..n])
  {
    var steps := Removals<K, R>(keys);
    assert DistinctRemoves(steps);
    forall n | 0 <= n <= |keys| ensures KeysOf(steps[..n]) == set k | k in keys[..n] {
      forall k | k in keys[..n] ensures k in KeysOf(steps[..n]) {
        var i :| 0 <= i < n && keys[i] == k;
        assert steps[..n][i].key == k;
      }
    }
    assert steps[..|keys|] == steps && keys[..|keys|] == keys;
    RunRemoves(m, steps);
  }
}
