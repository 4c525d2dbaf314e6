/** The batch calls that start imports and deployments, and what their background part does when it fails. */
module Deliver {
  import opened Strings
  import opened Lifecycle
  import opened Operations
  import opened Pipeline
  import opened BatchChecks
  import opened Numerals
  import CpiVersion

  datatype Lookup = Found(copies: seq<(nat, Row)>) | NoIds | NoneFound | Missing(ids: seq<nat>)

  /** started: the copies the background part goes on with. skipped: the operations reported back to the caller. */
  datatype Outcome = Refused | NothingToDo(skipped: set<nat>) | Done(started: seq<(nat, Row)>, trs: seq<nat>, skipped: set<nat>)

  ghost predicate EachOnce(copies: seq<(nat, Row)>) {
    forall i, j | 0 <= i < j < |copies| :: copies[i].0 != copies[j].0
  }

  ghost predicate AreRows(copies: seq<(nat, Row)>, rows: map<nat, Row>) {
    forall c | c in copies :: c.0 in rows && c.1 == rows[c.0]
  }

  ghost function IdsOf(copies: seq<(nat, Row)>): set<nat> {
    set c | c in copies :: c.0
  }

  /** The table after exactly these rows have been moved on. */
  ghost predicate Moved(rows: map<nat, Row>, ids: set<nat>, phase: Phase, rows': map<nat, Row>) {
    rows'.Keys == rows.Keys && forall id | id in rows :: rows'[id] == if id in ids then UnderWay(phase, rows[id]) else rows[id]
  }

  /** A column that is zero in the copy keeps what the table holds, any other takes the copy's value. */
  predicate Column<T(==)>(was: T, copy: T, zero: T, now: T) {
    now == if copy == zero then was else copy
  }

  /** The row after the copy has been written over it; the remaining columns are never zero. */
  predicate Overwritten(was: Row, copy: Row, now: Row) {
    && Column(was.op.skipDeploy, copy.op.skipDeploy, false, now.op.skipDeploy)
    && Column(was.op.tr, copy.op.tr, "", now.op.tr)
    && Column(was.request, copy.request, RequestUnset, now.request)
    && now.op.(skipDeploy := copy.op.skipDeploy, tr := copy.op.tr) == copy.op
  }

  /** The copy with the import or the deployment failed. */
  function Failing(phase: Phase, copy: Row): Row {
    match phase
    case Import => Row(copy.op.(importState := ImportFailed), copy.request)
    case Deploy => Row(copy.op.(deployState := DeployFailed), copy.request)
  }

  lemma UpdatesOverwrite(was: Row, copy: Row, now: Row)
    ensures Overwritten(was, copy, now) <==> now == Updates(was, copy)
  {
  }

  lemma RevertedFails(phase: Phase, copy: Row)
    ensures Reverted(phase, copy) == Failing(phase, copy)
  {
  }

  class OperationTable {
    var rows: map<nat, Row>

    constructor (rows: map<nat, Row>)
      ensures this.rows == rows
    {
      this.rows := rows;
    }

    /** The rows with these ids, each once, or none at all when an id has no row. */
    method QueryOps(ids: seq<nat>) returns (found: Lookup)
      ensures found.Found? <==> ids != [] && forall id | id in ids :: id in rows
      ensures found.Found? ==> EachOnce(found.copies) && AreRows(found.copies, rows) && IdsOf(found.copies) == set id | id in ids
      ensures found.NoIds? <==> ids == []
      ensures found.Missing? ==> forall id :: id in found.ids <==> id in ids && id !in rows
    {
      if ids == [] { return NoIds; }
      var todo := set id | id in ids && id in rows;
      ghost var all := todo;
      var copies: seq<(nat, Row)> := [];
      while todo != {}
        invariant todo <= all && EachOnce(copies) && AreRows(copies, rows)
        invariant forall c | c in copies :: c.0 in all && c.0 !in todo
        invariant forall id | id in all && id !in todo :: (id, rows[id]) in copies
      {
        var id :| id in todo;
        todo := todo - {id};
        copies := copies + [(id, rows[id])];
      }
      if copies == [] {
        assert ids[0] in ids && ids[0] !in all;
        return NoneFound;
      }
      var missing: seq<nat> := [];
      for i := 0 to |ids|
        invariant forall id :: id in missing <==> id in ids[..i] && id !in rows
      {
        if ids[i] !in rows { missing := missing + [ids[i]]; }
      }
      assert ids[..|ids|] == ids;
      if missing != [] {
        assert missing[0] in missing;
        return Missing(missing);
      }
      assert IdsOf(copies) == set id | id in ids by {
        forall id | id in ids ensures id in IdsOf(copies) { assert (id, rows[id]) in copies; }
      }
      return Found(copies);
    }

    /** Writes the copies back one by one; every other row stays as it is. */
    method BatchUpdateOps(copies: seq<(nat, Row)>)
      requires EachOnce(copies)
      modifies this`rows
      ensures rows.Keys == old(rows).Keys
      ensures forall id | id in rows && id !in IdsOf(copies) :: rows[id] == old(rows)[id]
      ensures forall c | c in copies && c.0 in old(rows) :: Overwritten(old(rows)[c.0], c.1, rows[c.0])
    {
      hide Updates, Overwritten;
      for i := 0 to |copies|
        invariant rows.Keys == old(rows).Keys
        invariant forall id | id in rows && id !in IdsOf(copies[..i]) :: rows[id] == old(rows)[id]
        invariant forall j | 0 <= j < i && copies[j].0 in old(rows) :: rows[copies[j].0] == Updates(old(rows)[copies[j].0], copies[j].1)
      {
        var id := copies[i].0;
        assert forall c :: c in copies[..i + 1] <==> c in copies[..i] || c == copies[i];
        if id in rows {
          assert id !in IdsOf(copies[..i]);
          rows := rows[id := Updates(rows[id], copies[i].1)];
        }
      }
      assert copies[..|copies|] == copies;
      forall c | c in copies && c.0 in old(rows) ensures Overwritten(old(rows)[c.0], c.1, rows[c.0]) {
        UpdatesOverwrite(old(rows)[c.0], c.1, rows[c.0]);
      }
    }

    /** Checks every operation named and starts those that pass: nothing else changes, and when the operations
        cannot all be found, or none passes, nothing changes at all. */
    method BatchStart(phase: Phase, ids: seq<nat>, target: nat, land: Landscape) returns (outcome: Outcome)
      modifies this`rows
      ensures outcome.Refused? <==> ids == [] || (exists id :: id in ids && id !in old(rows)) || target !in land.nodes
      ensures outcome.Refused? ==> rows == old(rows)
      ensures outcome.NothingToDo? ==> rows == old(rows) && forall id | id in ids :: !May(phase, rows[id], land, target)
      ensures outcome.Done? ==> outcome.started != [] && Moved(old(rows), IdsOf(outcome.started), phase, rows)
      ensures outcome.Done? ==> IdsOf(outcome.started) == set id | id in ids && May(phase, old(rows)[id], land, target)
      ensures outcome.Done? ==> EachOnce(outcome.started) && AreRows(outcome.started, rows)
      ensures outcome.Done? && phase == Import ==> NumbersOf(outcome.trs, outcome.started)
      ensures !outcome.Refused? && phase == Import ==> forall id :: id in outcome.skipped <==>
                id in ids && !May(phase, old(rows)[id], land, target) && old(rows)[id].op.importState != ImportComplete
      ensures !outcome.Refused? && phase == Deploy ==> forall id :: id in outcome.skipped <==>
                id in ids && !May(phase, old(rows)[id], land, target) && old(rows)[id].op.deployState != DeployDisabled
    {
      var found := QueryOps(ids);
      if !found.Found? || target !in land.nodes { return Refused; }
      var copies := found.copies;
      assert forall id :: id in ids <==> id in IdsOf(copies);
      hide Updates, Overwritten, UnderWay, May;
      var valid, trs, skipped := Precheck(phase, copies, target, land);
      forall v | v in valid ensures v.0 in rows && v.1 == UnderWay(phase, rows[v.0]) {
        var c :| c in copies && c.0 == v.0 && v.1 == UnderWay(phase, c.1);
      }
      ghost var accepted := set id | id in ids && May(phase, rows[id], land, target);
      assert IdsOf(valid) == accepted by { SameIds(ids, rows, copies, phase, land, target); }
      assert skipped == set id | id in ids && !May(phase, rows[id], land, target) && !Passed(phase, rows[id]) by {
        SameSkipped(ids, rows, copies, phase, land, target);
      }
      if valid == [] {
        assert IdsOf(valid) == {};
        forall id | id in ids ensures !May(phase, rows[id], land, target) {
          assert id !in accepted;
        }
        return NothingToDo(skipped);
      }
      BatchUpdateOps(valid);
      forall id | id in old(rows) ensures rows[id] == if id in accepted then UnderWay(phase, old(rows)[id]) else old(rows)[id] {
        if id in accepted {
          var v :| v in valid && v.0 == id;
          StartingWrites(phase, old(rows)[id]);
          UpdatesOverwrite(old(rows)[id], v.1, rows[id]);
        }
      }
      return Done(valid, trs, skipped);
    }

    /** The background part could not reach TMS, or could not deploy some artifacts: those operations are set to
        failed from the copies taken when they were started, whatever has become of their rows since. */
    method BatchFail(phase: Phase, failing: seq<(nat, Row)>)
      requires EachOnce(failing)
      modifies this`rows
      ensures rows.Keys == old(rows).Keys
      ensures forall id | id in rows && id !in IdsOf(failing) :: rows[id] == old(rows)[id]
      ensures forall c | c in failing && c.0 in old(rows) :: Overwritten(old(rows)[c.0], Failing(phase, c.1), rows[c.0])
    {
      hide Overwritten, Reverted, Failing;
      var failed: seq<(nat, Row)> := [];
      for i := 0 to |failing|
        invariant |failed| == i && EachOnce(failed)
        invariant forall j | 0 <= j < i :: failed[j] == (failing[j].0, Reverted(phase, failing[j].1))
      {
        failed := failed + [(failing[i].0, Reverted(phase, failing[i].1))];
      }
      assert IdsOf(failed) == IdsOf(failing) by {
        forall id | id in IdsOf(failing) ensures id in IdsOf(failed) {
          var i :| 0 <= i < |failing| && failing[i].0 == id;
          assert failed[i] in failed;
        }
      }
      BatchUpdateOps(failed);
      forall c | c in failing && c.0 in old(rows) ensures Overwritten(old(rows)[c.0], Failing(phase, c.1), rows[c.0]) {
        var i :| 0 <= i < |failing| && failing[i] == c;
        RevertedFails(phase, c.1);
        assert failed[i] in failed;
      }
    }
  }

  /** The checks before a batch: the copies that pass, moved on, and the ids of those that do not. */
  method Precheck(phase: Phase, copies: seq<(nat, Row)>, target: nat, land: Landscape)
    returns (valid: seq<(nat, Row)>, trs: seq<nat>, skipped: set<nat>)
    requires EachOnce(copies) && target in land.nodes
    ensures EachOnce(valid)
    ensures forall v | v in valid :: exists c :: c in copies && c.0 == v.0 && v.1 == UnderWay(phase, c.1)
    ensures IdsOf(valid) == set c | c in copies && May(phase, c.1, land, target) :: c.0
    ensures skipped == set c | c in copies && !May(phase, c.1, land, target) && !Passed(phase, c.1) :: c.0
    ensures phase == Import ==> NumbersOf(trs, valid)
  {
    valid, trs, skipped := [], [], {};
    hide Importable, Deployable, Passed, Updates, Started, Accepts, May, UnderWay, IsNumeral;
    for i := 0 to |copies|
      invariant EachOnce(valid)
      invariant forall v | v in valid :: exists c :: c in copies && c.0 == v.0 && v.1 == UnderWay(phase, c.1)
      invariant IdsOf(valid) == set c | c in copies[..i] && May(phase, c.1, land, target) :: c.0
      invariant skipped == set c | c in copies[..i] && !May(phase, c.1, land, target) && !Passed(phase, c.1) :: c.0
      invariant phase == Import ==> NumbersOf(trs, valid)
    {
      var (id, row) := copies[i];
      assert copies[..i + 1] == copies[..i] + [copies[i]];
      assert id !in IdsOf(copies[..i]);
      assert (id, row) in copies;
      AcceptsIff(phase, row, land, target);
      StartedIsUnderWay(phase, row);
      if Passed(phase, row) {
        PassedIsNotStarted(phase, row, land, target);
      } else if Accepts(phase, row, land, target) {
        if phase == Import {
          AcceptedTr(row, land, target);
          trs := trs + [ToUint(row.op.tr).value];
        }
        valid := AppendOne(valid, (id, Started(phase, row)));
      } else {
        skipped := skipped + {id};
      }
    }
    assert copies[..|copies|] == copies;
  }

  /** The transport requests of the started copies, one for each. */
  ghost predicate NumbersOf(trs: seq<nat>, started: seq<(nat, Row)>) {
    |trs| == |started| && forall i | 0 <= i < |trs| :: IsNumeral(started[i].1.op.tr, trs[i])
  }

  function AppendOne(valid: seq<(nat, Row)>, v: (nat, Row)): (r: seq<(nat, Row)>)
    ensures IdsOf(r) == IdsOf(valid) + {v.0}
  {
    assert forall c :: c in valid + [v] <==> c in valid || c == v;
    assert v in valid + [v];
    valid + [v]
  }

  lemma PassedIsNotStarted(phase: Phase, row: Row, land: Landscape, target: nat)
    requires Passed(phase, row) && target in land.nodes
    ensures !May(phase, row, land, target)
  {
  }

  lemma AcceptedTr(row: Row, land: Landscape, target: nat)
    requires Accepts(Import, row, land, target)
    ensures ToUint(row.op.tr).Some? && IsNumeral(UnderWay(Import, row).op.tr, ToUint(row.op.tr).value)
  {
    ToUintIff(row.op.tr, ToUint(row.op.tr).value);
  }

  lemma StartedIsUnderWay(phase: Phase, row: Row)
    ensures Started(phase, row) == UnderWay(phase, row)
  {
  }

  lemma StartingWrites(phase: Phase, row: Row)
    ensures Updates(row, UnderWay(phase, row)) == UnderWay(phase, row)
  {
  }

  lemma SameIds(ids: seq<nat>, rows: map<nat, Row>, copies: seq<(nat, Row)>, phase: Phase, land: Landscape, target: nat)
    requires AreRows(copies, rows) && (forall id :: id in ids <==> id in IdsOf(copies)) && target in land.nodes
    ensures forall id | id in ids :: id in rows
    ensures (set c | c in copies && May(phase, c.1, land, target) :: c.0) == set id | id in ids && May(phase, rows[id], land, target)
  {
    hide May;
    forall id | id in ids ensures id in rows && (id, rows[id]) in copies {
      var c :| c in copies && c.0 == id;
    }
  }

  lemma SameSkipped(ids: seq<nat>, rows: map<nat, Row>, copies: seq<(nat, Row)>, phase: Phase, land: Landscape, target: nat)
    requires AreRows(copies, rows) && (forall id :: id in ids <==> id in IdsOf(copies)) && target in land.nodes
    ensures forall id | id in ids :: id in rows
    ensures (set c | c in copies && !May(phase, c.1, land, target) && !Passed(phase, c.1) :: c.0)
            == set id | id in ids && !May(phase, rows[id], land, target) && !Passed(phase, rows[id])
  {
    hide May, Passed;
    forall id | id in ids ensures id in rows && (id, rows[id]) in copies {
      var c :| c in copies && c.0 == id;
    }
  }

  /** What has been started is not started again; once its background part has failed, with nothing else in between,
      it can be. */
  lemma StartedOnceUntilItFails(phase: Phase, row: Row, land: Landscape, target: nat)
    requires Accepts(phase, row, land, target)
    ensures !Accepts(phase, Started(phase, row), land, target)
    ensures var failed := Updates(Started(phase, row), Reverted(phase, Started(phase, row)));
            Accepts(phase, failed, land, target) && failed == Reverted(phase, row)
  {
    hide CpiVersion.Gate, ToUint;
  }

  // ----- The batch as a stretch of a concurrent run -----

  /** The call has these rows still to write, as they are now with the phase under way. */
  ghost predicate HasTodo(s: State, c: nat, phase: Phase, todo: set<nat>) {
    && c in s.calls && s.calls[c].Writing? && s.calls[c].phase == phase && s.calls[c].todo == todo
    && forall id | id in todo :: id in s.calls[c].copies && id in s.rows && s.calls[c].copies[id] == UnderWay(phase, s.rows[id])
  }

  lemma OneWrite(s: State, c: nat, phase: Phase, todo: set<nat>, id: nat) returns (t: State)
    requires HasTodo(s, c, phase, todo) && id in todo
    ensures Stretch([s, t], s) && HasTodo(t, c, phase, todo - {id}) && Moved(s.rows, {id}, phase, t.rows)
  {
    var next := With(s, c, s.calls[c].(todo := s.calls[c].todo - {id}));
    StartingWrites(phase, s.rows[id]);
    t := Put(next, id, Updates(s.rows[id], s.calls[c].copies[id]));
    hide Updates, UnderWay, Next;
    assert Batches(s, WriteRow(c, id, false), t);
    OneStep(s, WriteRow(c, id, false), t);
  }

  lemma MovedTwice(a: map<nat, Row>, b: map<nat, Row>, c: map<nat, Row>, id: nat, ids: set<nat>, phase: Phase)
    requires Moved(a, {id}, phase, b) && Moved(b, ids - {id}, phase, c) && id in ids
    ensures Moved(a, ids, phase, c)
  {
    hide UnderWay;
  }

  /** The rest of the writes of a batch, one after the other. */
  lemma {:induction false} WritesOut(s: State, c: nat, phase: Phase, todo: set<nat>) returns (states: seq<State>)
    requires HasTodo(s, c, phase, todo)
    ensures Stretch(states, s) && Moved(s.rows, todo, phase, Last(states).rows)
    decreases |todo|
  {
    if todo == {} {
      states := [s];
    } else {
      var id :| id in todo;
      hide HasTodo, Moved, Next;
      var t := OneWrite(s, c, phase, todo, id);
      states := WritesOut(t, c, phase, todo - {id});
      MovedTwice(s.rows, t.rows, Last(states).rows, id, todo, phase);
      Join([s, t], states, s);
      states := [s, t] + states[1..];
    }
  }

  /** What a batch does when nobody interferes is what the concurrent model can do in a row: the same rows, moved in
      the same way. */
  lemma BatchIsSteps(s: State, c: nat, phase: Phase, chosen: set<nat>) returns (states: seq<State>)
    requires c in s.calls && s.calls[c].Admitted? && chosen != {}
    requires forall id | id in chosen :: id in s.rows && Startable(phase, s.rows[id])
    ensures Stretch(states, s) && Moved(s.rows, chosen, phase, Last(states).rows)
  {
    var t := With(s, c, Writing(s.calls[c].named, phase, AllStarted(phase, s.rows, chosen), chosen));
    assert HasTodo(t, c, phase, chosen) by {
      forall id | id in chosen ensures Started(phase, s.rows[id]) == UnderWay(phase, s.rows[id]) { StartedIsUnderWay(phase, s.rows[id]); }
      hide UnderWay, Started;
    }
    assert Batches(s, BeginBatch(c, phase, chosen), t);
    hide HasTodo, Moved, Next, Startable;
    OneStep(s, BeginBatch(c, phase, chosen), t);
    states := WritesOut(t, c, phase, chosen);
    Join([s, t], states, s);
    states := [s, t] + states[1..];
  }

  /** The copy wins: whatever has become of a row, a sync may have seen its import complete and queued its deployment,
      a trigger that fails late throws it back, in both phases, to where the batch had read it. */
  lemma LateFailureThrowsBack(s: State, c: nat, id: nat) returns (states: seq<State>)
    requires c in s.calls && s.calls[c].Triggered? && s.calls[c].phase == Import
    requires id in s.calls[c].copies && id in s.rows
    ensures Steps(states) && states[0] == s && id in Last(states).rows
    ensures Last(states).rows[id].op.importState == ImportFailed
    ensures Last(states).rows[id].op.deployState == s.calls[c].copies[id].op.deployState
  {
    var failing := s.calls[c].copies.Keys;
    var copies := AllReverted(s.calls[c].phase, s.calls[c].copies, failing);
    var a := With(s, c, Writing(s.calls[c].named, s.calls[c].phase, copies, failing));
    var t := Put(With(a, c, a.calls[c].(todo := failing - {id})), id, Updates(s.rows[id], copies[id]));
    assert Batches(s, Revert(c, failing), a) && Batches(a, WriteRow(c, id, false), t);
    assert StepsTo(s, Revert(c, failing), a) && StepsTo(a, WriteRow(c, id, false), t);
    states := [s, a, t];
  }
}
