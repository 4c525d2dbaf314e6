/** Concurrent SyncDeliveryStatus calls and the rows they add. The lock on a delivery request lives in the memory of
    one instance of the service; anything but a sync may add or remove rows at any time. */
module SyncLock {

  /** What a row is for: delivery request, tenant, transport request. */
  type Key = (nat, nat, string)

  /** known: the pairs a call read or dealt with. outside: rows others have added since it read the table. */
  datatype Call =
    | Locked(lock: (nat, nat))
    | Looking(lock: (nat, nat), known: set<Key>, outside: set<Key>)

  /** A lock is an instance and a delivery request. */
  datatype State = State(rows: multiset<Key>, locks: set<(nat, nat)>, calls: map<nat, Call>)

  datatype Step =
    | Begin(c: nat, lock: (nat, nat))
    | Read(c: nat)
    | Look(c: nat, key: Key, news: bool)      // news: TMS reports a state worth a row
    | End(c: nat)
    | AddRow(key: Key)
    | RemoveRow(key: Key)

  function RowsOf(rows: multiset<Key>, dr: nat): set<Key> {
    set key | key in rows && key.0 == dr
  }

  function Told(calls: map<nat, Call>, key: Key): map<nat, Call> {
    map c | c in calls :: if calls[c].Looking? then calls[c].(outside := calls[c].outside + {key}) else calls[c]
  }

  ghost predicate StepsTo(s: State, step: Step, t: State) {
    match step
    case Begin(c, lock) =>
      c !in s.calls && lock !in s.locks && t == s.(locks := s.locks + {lock}, calls := s.calls[c := Locked(lock)])
    case Read(c) =>
      && c in s.calls && s.calls[c].Locked?
      && var lock := s.calls[c].lock;
         t == s.(calls := s.calls[c := Looking(lock, RowsOf(s.rows, lock.1), {})])
    case Look(c, key, news) =>
      && c in s.calls && s.calls[c].Looking? && key.0 == s.calls[c].lock.1
      && t == if key in s.calls[c].known then s
              else s.(rows := if news then s.rows[key := s.rows[key] + 1] else s.rows,
                      calls := s.calls[c := s.calls[c].(known := s.calls[c].known + {key})])
    case End(c) => c in s.calls && t == s.(locks := s.locks - {s.calls[c].lock}, calls := s.calls - {c})
    case AddRow(key) => t == s.(rows := s.rows[key := s.rows[key] + 1], calls := Told(s.calls, key))
    case RemoveRow(key) => key in s.rows && t == s.(rows := s.rows[key := s.rows[key] - 1])
  }

  /** steps[i] leads from states[i] to states[i + 1]. */
  ghost predicate Run(states: seq<State>, steps: seq<Step>) {
    && |states| == |steps| + 1
    && states[0].locks == {} && states[0].calls == map[]
    && forall i | 0 <= i < |steps| :: StepsTo(states[i], steps[i], states[i + 1])
  }

  /** Every sync runs in the same instance. */
  ghost predicate OneInstance(steps: seq<Step>, instance: nat) {
    forall i | 0 <= i < |steps| && steps[i].Begin? :: steps[i].lock.0 == instance
  }

  ghost predicate CallOk(s: State, instance: nat, call: Call) {
    && call.lock.0 == instance && call.lock in s.locks
    && (call.Looking? ==> forall key | key in s.rows && key.0 == call.lock.1 :: key in call.known || key in call.outside)
  }

  ghost predicate Inv(s: State, instance: nat) {
    && (forall c | c in s.calls :: CallOk(s, instance, s.calls[c]))
    && (forall c, d | c in s.calls && d in s.calls && c != d :: s.calls[c].lock != s.calls[d].lock)
  }

  lemma StepKeeps(s: State, step: Step, t: State, instance: nat)
    requires Inv(s, instance) && StepsTo(s, step, t) && (step.Begin? ==> step.lock.0 == instance)
    ensures Inv(t, instance)
  {
    forall c | c in t.calls ensures CallOk(t, instance, t.calls[c]) {
      assert c in s.calls ==> CallOk(s, instance, s.calls[c]);
    }
  }

  lemma {:induction false} RunKeeps(states: seq<State>, steps: seq<Step>, instance: nat, i: nat)
    requires Run(states, steps) && OneInstance(steps, instance) && i < |states|
    ensures Inv(states[i], instance)
  {
    hide StepsTo;
    if i > 0 {
      RunKeeps(states, steps, instance, i - 1);
      assert StepsTo(states[i - 1], steps[i - 1], states[i - 1 + 1]);
      StepKeeps(states[i - 1], steps[i - 1], states[i], instance);
    }
  }

  /** Some step before i, after call c had read the table, added this row from outside. */
  ghost predicate AddedMeanwhile(states: seq<State>, steps: seq<Step>, i: nat, c: nat, key: Key)
    requires |states| == |steps| + 1 && i < |states|
  {
    exists j :: 0 <= j < i && steps[j] == AddRow(key) && c in states[j].calls && states[j].calls[c].Looking?
  }

  lemma {:induction false} OutsideWasAdded(states: seq<State>, steps: seq<Step>, i: nat, c: nat, key: Key)
    requires Run(states, steps) && i < |states|
    requires c in states[i].calls && states[i].calls[c].Looking? && key in states[i].calls[c].outside
    ensures AddedMeanwhile(states, steps, i, c, key)
  {
    if i > 0 {
      var s := states[i - 1];
      assert StepsTo(s, steps[i - 1], states[i - 1 + 1]);
      if c in s.calls && s.calls[c].Looking? && key in s.calls[c].outside {
        OutsideWasAdded(states, steps, i - 1, c, key);
      } else {
        assert steps[i - 1] == AddRow(key);
      }
    }
  }

  /** A sync adds a row only when the table has none for that request, tenant and transport request, unless
      somebody who is no sync added one after this sync had read the table. */
  lemma InsertsOnlyWhenNone(states: seq<State>, steps: seq<Step>, instance: nat, i: nat)
    requires Run(states, steps) && OneInstance(steps, instance)
    requires i < |steps| && steps[i].Look? && states[i + 1].rows != states[i].rows
    ensures steps[i].key in states[i].rows ==> AddedMeanwhile(states, steps, i, steps[i].c, steps[i].key)
    ensures states[i + 1].rows == states[i].rows + multiset{steps[i].key}
  {
    RunKeeps(states, steps, instance, i);
    var s, step := states[i], steps[i];
    assert StepsTo(s, step, states[i + 1]);
    if step.key in s.rows {
      assert CallOk(s, instance, s.calls[step.c]);
      OutsideWasAdded(states, steps, i, step.c, step.key);
    }
  }

  /** Syncs alone, however they interleave, never give a request, tenant and transport request a second row. */
  lemma {:induction false} SyncsNeverDuplicate(states: seq<State>, steps: seq<Step>, instance: nat, i: nat, key: Key)
    requires Run(states, steps) && OneInstance(steps, instance) && i < |states|
    requires forall j | 0 <= j < |steps| :: !steps[j].AddRow?
    ensures states[i].rows[key] <= 1 || states[i].rows[key] <= states[0].rows[key]
  {
    if i > 0 {
      SyncsNeverDuplicate(states, steps, instance, i - 1, key);
      assert StepsTo(states[i - 1], steps[i - 1], states[i - 1 + 1]);
      if steps[i - 1].Look? && states[i].rows != states[i - 1].rows {
        InsertsOnlyWhenNone(states, steps, instance, i - 1);
      }
    }
  }

  /** The lock does not reach across instances: any two of them, syncing the same request, can each add the row. */
  lemma TwoInstancesDuplicate(key: Key, a: nat, b: nat) returns (states: seq<State>, steps: seq<Step>)
    requires a != b
    ensures Run(states, steps) && states[0].rows == multiset{} && SyncsOf(steps, {a, b})
    ensures states[|steps|].rows[key] == 2
  {
    var dr := key.0;
    steps := [Begin(0, (a, dr)), Begin(1, (b, dr)), Read(0), Read(1), Look(0, key, true), Look(1, key, true)];
    var s0 := State(multiset{}, {}, map[]);
    var s1 := State(multiset{}, {(a, dr)}, map[0 := Locked((a, dr))]);
    var s2 := State(multiset{}, {(a, dr), (b, dr)}, map[0 := Locked((a, dr)), 1 := Locked((b, dr))]);
    var s3 := s2.(calls := map[0 := Looking((a, dr), {}, {}), 1 := Locked((b, dr))]);
    var s4 := s2.(calls := map[0 := Looking((a, dr), {}, {}), 1 := Looking((b, dr), {}, {})]);
    var s5 := s4.(rows := s4.rows[key := 1], calls := map[0 := Looking((a, dr), {key}, {}), 1 := Looking((b, dr), {}, {})]);
    var s6 := s4.(rows := s5.rows[key := 2], calls := map[0 := Looking((a, dr), {key}, {}), 1 := Looking((b, dr), {key}, {})]);
    states := [s0, s1, s2, s3, s4, s5, s6];
    assert RowsOf(s2.rows, dr) == {};
    assert StepsTo(s0, steps[0], s1) && StepsTo(s1, steps[1], s2);
    var none: set<Key> := {};
    assert none + {key} == {key};
    assert StepsTo(s2, steps[2], s3) && StepsTo(s3, steps[3], s4);
    assert StepsTo(s4, steps[4], s5) && StepsTo(s5, steps[5], s6);
  }

  /** Syncs run in these instances only, and nothing else adds a row. */
  ghost predicate SyncsOf(steps: seq<Step>, instances: set<nat>) {
    forall i | 0 <= i < |steps| :: !steps[i].AddRow? && (steps[i].Begin? ==> steps[i].lock.0 in instances)
  }

  /** No run of these instances' syncs gives any request, tenant and transport request more than one row, or more than
      it had before. */
  ghost predicate NeverDuplicate(instances: set<nat>) {
    forall states: seq<State>, steps: seq<Step>, i: nat, key: Key | Run(states, steps) && SyncsOf(steps, instances) && i < |states| ::
      states[i].rows[key] <= 1 || states[i].rows[key] <= states[0].rows[key]
  }

  /** The lock is enough exactly when all syncs run in one and the same instance. */
  lemma NeverDuplicateIff(instances: set<nat>)
    ensures NeverDuplicate(instances) <==> forall a, b | a in instances && b in instances :: a == b
  {
    if a, b :| a in instances && b in instances && a != b {
      var key: Key := (0, 0, "");
      var states, steps := TwoInstancesDuplicate(key, a, b);
      assert SyncsOf(steps, instances);
      assert !NeverDuplicate(instances);
    } else {
      var instance := if a: nat :| a in instances then a else 0;
      forall states: seq<State>, steps: seq<Step>, i: nat, key: Key | Run(states, steps) && SyncsOf(steps, instances) && i < |states|
        ensures states[i].rows[key] <= 1 || states[i].rows[key] <= states[0].rows[key]
      {
        SyncsNeverDuplicate(states, steps, instance, i, key);
      }
    }
  }
}
