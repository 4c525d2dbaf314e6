/** When a Commit call gives up: how often its push is refused, and why. */
module CommitRetries {
  import opened GitObjects
  import opened CommitProtocol

  /** A run together with the step taken in each state. */
  ghost predicate Traced(states: seq<State>, steps: seq<Step>) {
    && |states| == |steps| + 1 && Init(states[0])
    && forall i | 0 <= i < |steps| :: StepsTo(states[i], steps[i], states[i + 1])
  }

  lemma TracedIsRun(states: seq<State>, steps: seq<Step>)
    requires Traced(states, steps)
    ensures Run(states)
  {
    forall i | 0 <= i < |states| - 1 ensures Next(states[i], states[i + 1]) {
      assert StepsTo(states[i], steps[i], states[i + 1]);
    }
  }

  /** The call pushes a commit made on a tip that the branch has left since. */
  ghost predicate Outrun(s: State, step: Step, id: nat) {
    && step.Push? && step.id == id && id in s.procs && s.procs[id].pc.Pushing?
    && s.procs[id].call.branch in s.heads
    && s.heads[s.procs[id].call.branch] != s.procs[id].pc.parent
    && s.heads[s.procs[id].call.branch] != s.procs[id].pc.staged
  }

  /** How often that has happened to the call before i. */
  ghost function Outruns(states: seq<State>, steps: seq<Step>, i: nat, id: nat): nat
    requires |states| == |steps| + 1 && i <= |steps|
  {
    if i == 0 then 0 else Outruns(states, steps, i - 1, id) + if Outrun(states[i - 1], steps[i - 1], id) then 1 else 0
  }

  /** The step neither aborts the call nor loses a reply to it. */
  predicate Spares(step: Step, id: nat) {
    !(step.Abort? && step.id == id) && !(step.Create? && step.id == id && step.replyLost) && !(step.Push? && step.id == id && step.replyLost)
  }

  /** What the call's place says about how often its push has been refused. */
  ghost predicate Counted(s: State, id: nat, refused: nat) {
    id in s.procs ==>
      match s.procs[id].pc
      case Ensuring => refused == 0
      case Creating(_) => refused == 0
      case Reading(attempt) => refused == attempt && attempt < 3
      case Pushing(attempt, _, _) => refused == attempt && attempt < 3
      case Finished(outcome) => refused <= 3 && (outcome.Failed? <==> refused == 3)
  }

  lemma PushCounted(s: State, id: nat, refused: nat)
    requires Inv(s) && Enabled(s, Push(id, false)) && Counted(s, id, refused)
    ensures Counted(Apply(s, Push(id, false)), id, refused + if Outrun(s, Push(id, false), id) then 1 else 0)
  {
    var Proc(call, pc) := s.procs[id];
    assert ProcOk(s, id);
    FastForwardIsCompareAndSet(s.heads, call.branch, pc.parent, pc.staged);
    hide ProcOk, LogOk, FastForwards, UpdateRef;
  }

  lemma StepCounted(s: State, step: Step, id: nat, refused: nat)
    requires Inv(s) && Enabled(s, step) && Spares(step, id) && Counted(s, id, refused) && (id !in s.procs ==> refused == 0)
    ensures Counted(Apply(s, step), id, refused + if Outrun(s, step, id) then 1 else 0)
  {
    if step.Push? && step.id == id {
      PushCounted(s, id, refused);
    } else {
      hide Inv, Stored, FastForwards, UpdateRef;
    }
  }

  lemma {:induction false} RunCounted(states: seq<State>, steps: seq<Step>, i: nat, id: nat)
    requires Traced(states, steps) && i <= |steps|
    requires forall j | 0 <= j < i :: Spares(steps[j], id)
    ensures Counted(states[i], id, Outruns(states, steps, i, id))
    ensures id !in states[i].procs ==> Outruns(states, steps, i, id) == 0
  {
    hide Inv, Apply, Enabled, Counted;
    if i > 0 {
      RunCounted(states, steps, i - 1, id);
      TracedIsRun(states, steps);
      RunInv(states, i - 1);
      assert StepsTo(states[i - 1], steps[i - 1], states[i - 1 + 1]);
      StepCounted(states[i - 1], steps[i - 1], id, Outruns(states, steps, i - 1, id));
      if id !in states[i].procs { ProcsStay(states[i - 1], steps[i - 1], id); }
    } else {
      NotYet(states[0], id);
    }
  }

  lemma NotYet(s: State, id: nat)
    requires Init(s)
    ensures id !in s.procs && Counted(s, id, 0)
  {
  }

  lemma ProcsStay(s: State, step: Step, id: nat)
    requires Enabled(s, step) && id !in Apply(s, step).procs
    ensures id !in s.procs && !Outrun(s, step, id)
  {
    hide Stored, FastForwards, UpdateRef;
  }

  /** In every run, a call that is neither aborted nor loses a reply gives up exactly when its push has been refused three
      times, each time because the branch has left the tip the call had read; until then it has tried again, and it never
      pushes a fourth time. */
  lemma GivesUpAfterThree(states: seq<State>, steps: seq<Step>, i: nat, id: nat)
    requires Traced(states, steps) && i <= |steps| && id in states[i].procs
    requires forall j | 0 <= j < i :: Spares(steps[j], id)
    ensures Outruns(states, steps, i, id) <= 3
    ensures states[i].procs[id].pc.Finished? && states[i].procs[id].pc.outcome.Failed? <==> Outruns(states, steps, i, id) == 3
    ensures states[i].procs[id].pc.Reading? || states[i].procs[id].pc.Pushing? ==>
              states[i].procs[id].pc.attempt == Outruns(states, steps, i, id)
  {
    RunCounted(states, steps, i, id);
  }
}
