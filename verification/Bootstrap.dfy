/** Bringing one tenant into service: the lifecycle table, the claim on the tenant, the background job and the
    operator's reset, cut into the transactions they consist of. */
module Bootstrap {
  import opened Fresh
  import opened Strings

  datatype Lifecycle = Draft | Configured | NotReady | Readying | Ready

  datatype Event = CfIdentityConfigured | BootstrapStarted | BootstrapFinished | BootstrapFailed

  /** allowedTransitions */
  function Transition(state: Lifecycle, event: Event): Option<Lifecycle> {
    match (state, event)
    case (Draft, CfIdentityConfigured) => Some(Configured)
    case (Configured, BootstrapStarted) => Some(Readying)
    case (Configured, CfIdentityConfigured) => Some(Configured)
    case (NotReady, BootstrapStarted) => Some(Readying)
    case (NotReady, CfIdentityConfigured) => Some(Configured)
    case (Readying, BootstrapFinished) => Some(Ready)
    case (Readying, BootstrapFailed) => Some(NotReady)
    case (Ready, BootstrapStarted) => Some(Readying)
    case (Ready, CfIdentityConfigured) => Some(Configured)
    case _ => None
  }

  /** Where each event leads, */
  function TargetOf(event: Event): Lifecycle {
    match event
    case CfIdentityConfigured => Configured
    case BootstrapStarted => Readying
    case BootstrapFinished => Ready
    case BootstrapFailed => NotReady
  }

  /** and from where: while a tenant is being readied only the end of that is taken, and only then; a draft cannot be
      readied. */
  predicate Takes(state: Lifecycle, event: Event) {
    if state == Readying then event == BootstrapFinished || event == BootstrapFailed
    else event == CfIdentityConfigured || (event == BootstrapStarted && state != Draft)
  }

  lemma TransitionIff(state: Lifecycle, event: Event)
    ensures Transition(state, event) == if Takes(state, event) then Some(TargetOf(event)) else None
  {
  }

  datatype JobState = Running | Failed | WaitingUserAction | Finished

  /** The tenant row, as far as bootstrap is concerned, and its jobs. */
  datatype Tenant = Tenant(lifecycle: Lifecycle, pirDestination: string, casDestination: string, jobs: map<nat, JobState>)

  /** Whoever is at work on the tenant: an apply before and after its job exists, before and after it has persisted
      the destination names, and a reset before and after it has dealt with the jobs. */
  datatype Worker = Claimed | Applying(job: nat) | Persisted(job: nat) | Resetting | Marked

  datatype State = State(tenant: Tenant, workers: map<nat, Worker>)

  /** The transition when the table has one; otherwise the transaction it is part of is undone. */
  function Move(before: Tenant, after: Tenant, event: Event): Tenant {
    match Transition(before.lifecycle, event)
    case Some(next) => after.(lifecycle := next)
    case None => before
  }

  function Leaves(s: State, w: nat): State { s.(workers := s.workers - {w}) }

  /** fails: the database refuses the write. */
  datatype Step =
    | Claim(w: nat)
    | Rollback(w: nat, fails: bool)
    | CreateJob(w: nat, job: nat)
    | Persist(w: nat, pir: string, cas: string)
    | Fail(w: nat, state: JobState, fails: bool)
    | Finish(w: nat, fails: bool)
    | Die(w: nat)
    | BeginReset(w: nat)
    | MarkFailed(w: nat)
    | Release(w: nat)
    | SaveCfIdentity

  function FailRunning(jobs: map<nat, JobState>): map<nat, JobState> {
    map j | j in jobs :: if jobs[j] == Running then Failed else jobs[j]
  }

  ghost predicate StepsTo(s: State, step: Step, t: State) {
    match step
    case Claim(w) =>
      && w !in s.workers && Transition(s.tenant.lifecycle, BootstrapStarted).Some?
      && t == State(Move(s.tenant, s.tenant, BootstrapStarted), s.workers[w := Claimed])
    case Rollback(w, fails) =>
      && w in s.workers && s.workers[w].Claimed?
      && t == Leaves(if fails then s else s.(tenant := Move(s.tenant, s.tenant, BootstrapFailed)), w)
    case CreateJob(w, job) =>
      && w in s.workers && s.workers[w].Claimed? && job !in s.tenant.jobs
      && t == State(s.tenant.(jobs := s.tenant.jobs[job := Running]), s.workers[w := Applying(job)])
    case Persist(w, pir, cas) =>
      && w in s.workers && s.workers[w].Applying? && pir != "" && cas != ""
      && t == State(s.tenant.(pirDestination := pir, casDestination := cas), s.workers[w := Persisted(s.workers[w].job)])
    case Fail(w, state, fails) =>
      && w in s.workers && (s.workers[w].Applying? || s.workers[w].Persisted?) && state in {Failed, WaitingUserAction}
      && t == Leaves(if fails then s else s.(tenant := End(s.tenant, s.workers[w].job, state, BootstrapFailed)), w)
    case Finish(w, fails) =>
      && w in s.workers && s.workers[w].Persisted?
      && t == Leaves(if fails then s else s.(tenant := End(s.tenant, s.workers[w].job, Finished, BootstrapFinished)), w)
    case Die(w) => w in s.workers && t == Leaves(s, w)
    case BeginReset(w) =>
      w !in s.workers && s.tenant.lifecycle == Readying && t == s.(workers := s.workers[w := Resetting])
    case MarkFailed(w) =>
      && w in s.workers && s.workers[w].Resetting?
      && t == State(s.tenant.(jobs := FailRunning(s.tenant.jobs)), s.workers[w := Marked])
    case Release(w) =>
      && w in s.workers && s.workers[w].Marked?
      && t == Leaves(s.(tenant := Move(s.tenant, s.tenant, BootstrapFailed)), w)
    case SaveCfIdentity =>
      && s.tenant.lifecycle != Readying
      && t == s.(tenant := Move(s.tenant, s.tenant.(pirDestination := "", casDestination := ""), CfIdentityConfigured))
  }

  /** The last transaction of a job: its own row and the tenant's lifecycle, or neither. */
  function End(tenant: Tenant, job: nat, state: JobState, event: Event): Tenant {
    Move(tenant, tenant.(jobs := if job in tenant.jobs then tenant.jobs[job := state] else tenant.jobs), event)
  }

  /** steps[i] leads from states[i] to states[i + 1]. */
  ghost predicate Run(states: seq<State>, steps: seq<Step>) {
    |states| == |steps| + 1 && forall i | 0 <= i < |steps| :: StepsTo(states[i], steps[i], states[i + 1])
  }

  predicate Owns(worker: Worker) { worker.Claimed? || worker.Applying? || worker.Persisted? }

  ghost predicate Live(s: State) {
    exists w :: w in s.workers && Owns(s.workers[w])
  }

  ghost predicate ResetUnderWay(s: State) {
    exists w :: w in s.workers && !Owns(s.workers[w])
  }

  /** What operators and users may rely on: one job at a time, only while the tenant is being readied, and a ready
      tenant has both its destinations. */
  ghost predicate Good(tenant: Tenant) {
    && (forall j, k | j in tenant.jobs && k in tenant.jobs && tenant.jobs[j] == Running && tenant.jobs[k] == Running :: j == k)
    && (forall j | j in tenant.jobs && tenant.jobs[j] == Running :: tenant.lifecycle == Readying)
    && (tenant.lifecycle == Ready ==> tenant.pirDestination != "" && tenant.casDestination != "")
  }

  /** The row a live worker has left behind. */
  ghost predicate WorkerOk(tenant: Tenant, worker: Worker) {
    && tenant.lifecycle == Readying
    && (worker.Claimed? ==> forall j | j in tenant.jobs :: tenant.jobs[j] != Running)
    && (worker.Applying? || worker.Persisted? ==> worker.job in tenant.jobs && tenant.jobs[worker.job] == Running)
    && (worker.Persisted? ==> tenant.pirDestination != "" && tenant.casDestination != "")
  }

  /** A reset under way has the tenant to itself. */
  ghost predicate ResetOk(s: State) {
    && (ResetUnderWay(s) ==> s.tenant.lifecycle == Readying && !Live(s))
    && (forall v, w | v in s.workers && w in s.workers && !Owns(s.workers[v]) && !Owns(s.workers[w]) :: v == w)
    && (forall w | w in s.workers && s.workers[w].Marked? :: forall j | j in s.tenant.jobs :: s.tenant.jobs[j] != Running)
  }

  ghost predicate OwnersOk(s: State) {
    && (forall w | w in s.workers && Owns(s.workers[w]) :: WorkerOk(s.tenant, s.workers[w]))
    && (forall v, w | v in s.workers && w in s.workers && Owns(s.workers[v]) && Owns(s.workers[w]) :: v == w)
  }

  ghost predicate Inv(s: State) {
    Good(s.tenant) && OwnersOk(s) && ResetOk(s)
  }

  /** Nobody is at work on the tenant: its owner is dead, and no other reset has begun and not ended. */
  ghost predicate Quiet(s: State) {
    !Live(s) && !ResetUnderWay(s)
  }

  /** A reset is called only when all is quiet; what happens while it is under way is not restricted. */
  ghost predicate Guarded(states: seq<State>, steps: seq<Step>)
    requires |states| == |steps| + 1
  {
    forall i | 0 <= i < |steps| && steps[i].BeginReset? :: Quiet(states[i])
  }

  lemma WorkerShows(s: State, w: nat)
    requires w in s.workers
    ensures if Owns(s.workers[w]) then Live(s) else ResetUnderWay(s)
  {
  }

  lemma AllShow(s: State)
    ensures s.workers != map[] ==> Live(s) || ResetUnderWay(s)
  {
    if s.workers != map[] {
      var w :| w in s.workers;
      WorkerShows(s, w);
    }
  }

  lemma QuietMeansNobody(s: State)
    requires Quiet(s)
    ensures s.workers == map[]
  {
    AllShow(s);
  }

  /** There is never more than one at work. */
  lemma Alone(s: State, w: nat)
    requires Inv(s) && w in s.workers
    ensures s.workers == map[w := s.workers[w]] && s.tenant.lifecycle == Readying
  {
    WorkerShows(s, w);
    assert Owns(s.workers[w]) ==> WorkerOk(s.tenant, s.workers[w]);
    forall v | v in s.workers ensures v == w { WorkerShows(s, v); }
  }

  lemma BusyMeansReadying(s: State)
    requires Inv(s)
    ensures s.workers != map[] ==> s.tenant.lifecycle == Readying
  {
    if s.workers != map[] {
      var w :| w in s.workers;
      Alone(s, w);
    }
  }

  lemma ApplyKeeps(s: State, step: Step, t: State)
    requires Inv(s) && StepsTo(s, step, t)
    requires step.Claim? || step.Rollback? || step.CreateJob? || step.Persist? || step.Fail? || step.Finish?
    ensures Inv(t)
  {
    if step.Claim? {
      BusyMeansReadying(s);
      assert t.workers == map[step.w := Claimed];
    } else {
      Alone(s, step.w);
      assert WorkerOk(s.tenant, s.workers[step.w]);
    }
  }

  lemma OthersKeep(s: State, step: Step, t: State)
    requires Inv(s) && StepsTo(s, step, t) && (step.BeginReset? ==> Quiet(s))
    requires step.Die? || step.BeginReset? || step.MarkFailed? || step.Release? || step.SaveCfIdentity?
    ensures Inv(t)
  {
    if step.SaveCfIdentity? {
      BusyMeansReadying(s);
    } else if step.BeginReset? {
      QuietMeansNobody(s);
      assert t.workers == map[step.w := Resetting];
    } else {
      Alone(s, step.w);
    }
  }

  lemma {:induction false} RunKeeps(states: seq<State>, steps: seq<Step>, i: nat)
    requires Run(states, steps) && Guarded(states, steps) && Inv(states[0]) && i < |states|
    ensures Inv(states[i])
  {
    hide Inv, Quiet, StepsTo;
    if i > 0 {
      RunKeeps(states, steps, i - 1);
      var step := steps[i - 1];
      assert StepsTo(states[i - 1], step, states[i - 1 + 1]);
      if step.Die? || step.BeginReset? || step.MarkFailed? || step.Release? || step.SaveCfIdentity? {
        OthersKeep(states[i - 1], step, states[i]);
      } else {
        ApplyKeeps(states[i - 1], step, states[i]);
      }
    }
  }

  const START := State(Tenant(Draft, "", "", map[]), map[])

  /** As long as every reset is called when all is quiet, every run keeps the promises, and a tenant with anybody at
      work on it is being readied. */
  lemma GuardedRunsAreGood(states: seq<State>, steps: seq<Step>, i: nat)
    requires Run(states, steps) && Guarded(states, steps) && states[0] == START && i < |states|
    ensures Good(states[i].tenant)
    ensures states[i].workers != map[] ==> states[i].tenant.lifecycle == Readying && |states[i].workers| == 1
  {
    RunKeeps(states, steps, i);
    if states[i].workers != map[] {
      var w :| w in states[i].workers;
      Alone(states[i], w);
    }
  }

  /** A tenant becomes ready only as its job becomes finished, with both destination names in its row. */
  lemma ReadyOnlyByFinishing(states: seq<State>, steps: seq<Step>, i: nat)
    requires Run(states, steps) && Guarded(states, steps) && Inv(states[0]) && i < |steps|
    requires states[i].tenant.lifecycle != Ready && states[i + 1].tenant.lifecycle == Ready
    ensures steps[i].Finish? && steps[i].w in states[i].workers && states[i].workers[steps[i].w].Persisted?
    ensures var job := states[i].workers[steps[i].w].job;
            job in states[i].tenant.jobs && states[i].tenant.jobs[job] == Running
            && states[i + 1].tenant.jobs == states[i].tenant.jobs[job := Finished]
    ensures states[i + 1].tenant.pirDestination != "" && states[i + 1].tenant.casDestination != ""
  {
    RunKeeps(states, steps, i);
    assert StepsTo(states[i], steps[i], states[i + 1]);
    assert WorkerOk(states[i].tenant, states[i].workers[steps[i].w]);
  }

  /** However an apply ends, the tenant is not left readying, provided the last write goes through. */
  lemma ExitsRelease(s: State, step: Step, t: State)
    requires Inv(s) && StepsTo(s, step, t)
    requires (step.Rollback? && !step.fails) || (step.Fail? && !step.fails) || (step.Finish? && !step.fails)
    ensures t.tenant.lifecycle == if step.Finish? then Ready else NotReady
    ensures forall j | j in t.tenant.jobs :: t.tenant.jobs[j] != Running
  {
    assert WorkerOk(s.tenant, s.workers[step.w]);
  }

  // ----- The reset and its condition -----

  /** What a reset makes of the tenant when nothing comes between its read and its two writes. */
  function Reset(tenant: Tenant): Tenant {
    var marked := tenant.(jobs := FailRunning(tenant.jobs));
    Move(marked, marked, BootstrapFailed)
  }

  lemma Extend(states: seq<State>, steps: seq<Step>, step: Step, t: State)
    requires Run(states, steps) && StepsTo(states[|steps|], step, t)
    ensures Run(states + [t], steps + [step])
  {
    hide StepsTo;
    var longer, more := states + [t], steps + [step];
    forall i | 0 <= i < |more| ensures StepsTo(longer[i], more[i], longer[i + 1]) {
      if i < |steps| { assert StepsTo(states[i], steps[i], states[i + 1]); }
    }
  }

  lemma ResetIsThreeSteps(s: State, w: nat) returns (states: seq<State>, steps: seq<Step>)
    requires s.tenant.lifecycle == Readying && w !in s.workers
    ensures Run(states, steps) && |steps| == 3 && steps[0] == BeginReset(w)
    ensures states[0] == s && states[3] == s.(tenant := Reset(s.tenant))
  {
    var a := s.(workers := s.workers[w := Resetting]);
    var b := State(s.tenant.(jobs := FailRunning(s.tenant.jobs)), s.workers[w := Marked]);
    var t := s.(tenant := Reset(s.tenant));
    steps := [BeginReset(w), MarkFailed(w), Release(w)];
    states := [s, a, b, t];
    assert b.workers == a.workers[w := Marked] && t.workers == b.workers - {w};
    assert StepsTo(s, steps[0], a) && StepsTo(a, steps[1], b) && StepsTo(b, steps[2], t);
  }

  /** What follows keeps the promises, as long as later resets are called when all is quiet. */
  ghost predicate Safe(s: State) {
    forall states: seq<State>, steps: seq<Step>, i | Run(states, steps) && Guarded(states, steps) && states[0] == s && 0 <= i < |states| ::
      Good(states[i].tenant)
  }

  /** From here a run without any reset call gets to a broken promise. */
  ghost predicate Fails(states: seq<State>, steps: seq<Step>) {
    Run(states, steps) && !Good(states[|steps|].tenant) && forall i | 0 <= i < |steps| :: !steps[i].BeginReset?
  }

  lemma FailureIsUnsafe(states: seq<State>, steps: seq<Step>)
    requires Fails(states, steps)
    ensures !Safe(states[0])
  {
    assert Guarded(states, steps);
  }

  /** The reset w runs to its end on a tenant that has, or has had, somebody else at work on it. */
  lemma Released(s: State, w: nat) returns (states: seq<State>, steps: seq<Step>)
    requires w in s.workers && s.workers[w] == Resetting && s.tenant.lifecycle == Readying
    ensures Run(states, steps) && states[0] == s && forall i | 0 <= i < |steps| :: !steps[i].BeginReset?
    ensures states[|steps|] == State(Reset(s.tenant), s.workers - {w})
    ensures states[|steps|].tenant.lifecycle == NotReady
  {
    var b := State(s.tenant.(jobs := FailRunning(s.tenant.jobs)), s.workers[w := Marked]);
    var t := State(Reset(s.tenant), s.workers - {w});
    states, steps := [s, b, t], [MarkFailed(w), Release(w)];
    assert t.workers == b.workers - {w};
    assert StepsTo(s, steps[0], b) && StepsTo(b, steps[1], t);
  }

  /** A new apply claims the tenant and creates its job. */
  lemma NextApply(states: seq<State>, steps: seq<Step>) returns (states': seq<State>, steps': seq<Step>, job: nat)
    requires Run(states, steps) && states[|steps|].tenant.lifecycle == NotReady
    requires forall i | 0 <= i < |steps| :: !steps[i].BeginReset?
    ensures Run(states', steps') && states'[0] == states[0] && forall i | 0 <= i < |steps'| :: !steps'[i].BeginReset?
    ensures var s, t := states[|steps|], states'[|steps'|];
            && job !in s.tenant.jobs
            && t.tenant == s.tenant.(lifecycle := Readying, jobs := s.tenant.jobs[job := Running])
            && (forall w | w in s.workers :: w in t.workers && t.workers[w] == s.workers[w])
            && (forall w | w in s.workers && (s.workers[w].Applying? || s.workers[w].Persisted?) :: s.workers[w].job != job)
  {
    var s := states[|steps|];
    var v := Unused(s.workers.Keys);
    job := Unused(s.tenant.jobs.Keys + (set w | w in s.workers && (s.workers[w].Applying? || s.workers[w].Persisted?) :: s.workers[w].job));
    var a := State(s.tenant.(lifecycle := Readying), s.workers[v := Claimed]);
    var b := State(a.tenant.(jobs := a.tenant.jobs[job := Running]), a.workers[v := Applying(job)]);
    Extend(states, steps, Claim(v), a);
    Extend(states + [a], steps + [Claim(v)], CreateJob(v, job), b);
    states', steps' := states + [a] + [b], steps + [Claim(v)] + [CreateJob(v, job)];
  }

  /** With an owner that has claimed and not yet made its job, the job comes after the release. */
  lemma LateJob(s: State, w: nat, o: nat) returns (states: seq<State>, steps: seq<Step>)
    requires s.tenant.lifecycle == Readying && w in s.workers && s.workers[w] == Resetting
    requires o in s.workers && s.workers[o] == Claimed
    ensures Fails(states, steps) && states[0] == s
  {
    states, steps := Released(s, w);
    var t := states[|steps|];
    var job := Unused(t.tenant.jobs.Keys);
    var u := State(t.tenant.(jobs := t.tenant.jobs[job := Running]), t.workers[o := Applying(job)]);
    Extend(states, steps, CreateJob(o, job), u);
    states, steps := states + [u], steps + [CreateJob(o, job)];
    assert u.tenant.jobs[job] == Running;
  }

  /** With an owner at its job, that job is finished while the next one runs. */
  lemma LateFinish(s: State, w: nat, o: nat) returns (states: seq<State>, steps: seq<Step>)
    requires s.tenant.lifecycle == Readying && w in s.workers && s.workers[w] == Resetting
    requires o in s.workers && (s.workers[o].Applying? || s.workers[o].Persisted?)
    ensures Fails(states, steps) && states[0] == s
  {
    states, steps := Released(s, w);
    var own := s.workers[o].job;
    if s.workers[o].Applying? {
      var t := states[|steps|];
      var u := State(t.tenant.(pirDestination := "p", casDestination := "c"), t.workers[o := Persisted(own)]);
      Extend(states, steps, Persist(o, "p", "c"), u);
      states, steps := states + [u], steps + [Persist(o, "p", "c")];
    }
    var job;
    states, steps, job := NextApply(states, steps);
    var b := states[|steps|];
    var c := Leaves(b.(tenant := End(b.tenant, own, Finished, BootstrapFinished)), o);
    Extend(states, steps, Finish(o, false), c);
    states, steps := states + [c], steps + [Finish(o, false)];
    assert job in c.tenant.jobs && c.tenant.jobs[job] == Running && c.tenant.lifecycle == Ready;
  }

  /** With another reset under way, that one releases the tenant under the next apply. */
  lemma LateRelease(s: State, w: nat, r: nat) returns (states: seq<State>, steps: seq<Step>)
    requires s.tenant.lifecycle == Readying && w in s.workers && s.workers[w] == Resetting
    requires r in s.workers && r != w && (s.workers[r] == Resetting || s.workers[r] == Marked)
    ensures Fails(states, steps) && states[0] == s
  {
    states, steps := Released(s, w);
    if s.workers[r] == Resetting {
      var t := states[|steps|];
      var u := State(t.tenant.(jobs := FailRunning(t.tenant.jobs)), t.workers[r := Marked]);
      Extend(states, steps, MarkFailed(r), u);
      states, steps := states + [u], steps + [MarkFailed(r)];
    }
    var job;
    states, steps, job := NextApply(states, steps);
    var b := states[|steps|];
    var c := Leaves(b.(tenant := Move(b.tenant, b.tenant, BootstrapFailed)), r);
    Extend(states, steps, Release(r), c);
    states, steps := states + [c], steps + [Release(r)];
    assert job in c.tenant.jobs && c.tenant.jobs[job] == Running && c.tenant.lifecycle == NotReady;
  }

  /** Calling a reset on a tenant that is being readied is safe for all that follows exactly when all is quiet at the
      call. An owner that is still alive breaks it, and so does another reset that has begun. */
  lemma ResetSafeIff(s: State, w: nat)
    requires Inv(s) && s.tenant.lifecycle == Readying && w !in s.workers
    ensures Safe(s.(workers := s.workers[w := Resetting])) <==> Quiet(s)
  {
    var t := s.(workers := s.workers[w := Resetting]);
    if Quiet(s) {
      assert StepsTo(s, BeginReset(w), t);
      OthersKeep(s, BeginReset(w), t);
      hide Inv, Good, StepsTo;
      forall states: seq<State>, steps: seq<Step>, i | Run(states, steps) && Guarded(states, steps) && states[0] == t && 0 <= i < |states|
        ensures Good(states[i].tenant) {
        RunKeeps(states, steps, i);
        InvIsGood(states[i]);
      }
    } else {
      var states, steps;
      if Live(s) {
        var o :| o in s.workers && Owns(s.workers[o]);
        if s.workers[o].Claimed? { states, steps := LateJob(t, w, o); } else { states, steps := LateFinish(t, w, o); }
      } else {
        var r :| r in s.workers && !Owns(s.workers[r]);
        states, steps := LateRelease(t, w, r);
      }
      FailureIsUnsafe(states, steps);
    }
  }

  lemma InvIsGood(s: State)
    requires Inv(s)
    ensures Good(s.tenant)
  {
  }

  /** Resets called with the owner dead are not enough: two of them that overlap leave a running job on a tenant that
      is not being readied. */
  lemma OverlappingResetsFail() returns (states: seq<State>, steps: seq<Step>)
    ensures Run(states, steps) && states[0] == START && !Good(states[|steps|].tenant)
    ensures forall i | 0 <= i < |steps| && steps[i].BeginReset? :: !Live(states[i])
  {
    var tenant := START.tenant;
    var s1 := START.(tenant := tenant.(lifecycle := Configured));
    var s2 := State(tenant.(lifecycle := Readying), map[0 := Claimed]);
    var s3 := State(tenant.(lifecycle := Readying), map[]);
    var s4 := s3.(workers := map[1 := Resetting]);
    var s5 := s3.(workers := map[1 := Resetting, 2 := Resetting]);
    var begun := [SaveCfIdentity, Claim(0), Die(0), BeginReset(1), BeginReset(2)];
    var passed := [START, s1, s2, s3, s4, s5];
    assert s3.workers == s2.workers - {0};
    assert StepsTo(START, begun[0], s1) && StepsTo(s1, begun[1], s2) && StepsTo(s2, begun[2], s3);
    assert StepsTo(s3, begun[3], s4) && StepsTo(s4, begun[4], s5);
    hide StepsTo, Good;
    assert Run(passed, begun);
    var rest, more := LateRelease(s5, 2, 1);
    states, steps := passed[..5] + rest, begun + more;
    Joined(passed, begun, rest, more);
  }

  lemma Joined(states: seq<State>, steps: seq<Step>, rest: seq<State>, more: seq<Step>)
    requires Run(states, steps) && Run(rest, more) && rest[0] == states[|steps|]
    ensures Run(states[..|steps|] + rest, steps + more)
  {
    hide StepsTo;
    var whole, all := states[..|steps|] + rest, steps + more;
    forall i | 0 <= i < |all| ensures StepsTo(whole[i], all[i], whole[i + 1]) {
      if i < |steps| {
        assert StepsTo(states[i], steps[i], states[i + 1]);
      } else {
        assert StepsTo(rest[i - |steps|], more[i - |steps|], rest[i - |steps| + 1]);
      }
    }
  }
}
