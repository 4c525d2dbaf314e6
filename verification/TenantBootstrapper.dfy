/** The calls on a tenant row, each run from beginning to end. */
module TenantBootstrapper {
  import Fresh
  import opened Strings
  import opened Bootstrap

  /** What can go wrong in the background job, in the order it is met. */
  datatype Stage =
    | BuildApplier | PirApi | CasApplication | CasStandard | DestinationService
    | CentralTmsContext | SubscriberDestinations | ProviderClient | ProviderDestinations | PersistNames

  /** The stages before the one that may need the operator to act. */
  const LOCAL := [BuildApplier, PirApi, CasApplication, CasStandard, DestinationService]

  const STAGES := LOCAL + [CentralTmsContext, SubscriberDestinations, ProviderClient, ProviderDestinations, PersistNames]

  /** The first stage of these that goes wrong. */
  function FirstFailing(stages: seq<Stage>, failing: set<Stage>): (r: Option<Stage>)
    ensures r.None? <==> forall s | s in stages :: s !in failing
    ensures r.Some? ==> r.value in stages && r.value in failing
  {
    if stages == [] then None
    else if stages[0] in failing then Some(stages[0])
    else FirstFailing(stages[1..], failing)
  }

  function JobStateFor(stage: Stage): JobState {
    if stage == CentralTmsContext then WaitingUserAction else Failed
  }

  /** The names ensureProviderDestinations settles on. */
  function PirName(id: string): string { "CPIDELIVERY_PIR_" + id }

  function CasName(id: string): string { "CPIDELIVERY_CAS_" + id }

  datatype Inspection = Passed | Blocked

  class TenantRow {
    const id: string
    var tenant: Tenant

    constructor (id: string, tenant: Tenant)
      ensures this.id == id && this.tenant == tenant
    {
      this.id := id;
      this.tenant := tenant;
    }

    method TransitionLifecycle(event: Event) returns (ok: bool)
      modifies this`tenant
      ensures ok <==> Takes(old(tenant).lifecycle, event)
      ensures tenant == if ok then old(tenant).(lifecycle := TargetOf(event)) else old(tenant)
    {
      TransitionIff(tenant.lifecycle, event);
      var next := Transition(tenant.lifecycle, event);
      if next.None? { return false; }
      tenant := tenant.(lifecycle := next.value);
      return true;
    }

    /** Claims the tenant, inspects, and leaves either a running job or a tenant that can be tried again. */
    method ApplyBootstrap(inspection: Inspection) returns (job: Option<nat>)
      modifies this`tenant
      ensures !Takes(old(tenant).lifecycle, BootstrapStarted) ==> job.None? && tenant == old(tenant)
      ensures Takes(old(tenant).lifecycle, BootstrapStarted) && inspection == Blocked ==>
                job.None? && tenant == old(tenant).(lifecycle := NotReady)
      ensures Takes(old(tenant).lifecycle, BootstrapStarted) && inspection == Passed ==>
                job.Some? && job.value !in old(tenant).jobs
                && tenant == old(tenant).(lifecycle := Readying, jobs := old(tenant).jobs[job.value := Running])
    {
      var claimed := TransitionLifecycle(BootstrapStarted);
      if !claimed { return None; }
      if inspection == Blocked {
        var _ := TransitionLifecycle(BootstrapFailed);
        return None;
      }
      ghost var _ := Fresh.Unused(tenant.jobs.Keys);
      var j: nat :| j !in tenant.jobs;
      tenant := tenant.(jobs := tenant.jobs[j := Running]);
      return Some(j);
    }

    /** The background part: the first stage to fail ends it, and only when none does is the tenant made ready. When the
        database refuses the last write, the tenant is left as the stages before have left it. */
    method RunBootstrap(job: nat, failing: set<Stage>, refused: bool)
      requires job in tenant.jobs
      modifies this`tenant
      ensures tenant == AfterJob(old(tenant), id, job, FirstFailing(STAGES, failing), refused)
      ensures old(tenant).lifecycle == Readying ==> tenant == JobLeaves(old(tenant), id, job, failing, refused)
    {
      if tenant.lifecycle == Readying { AfterJobIs(tenant, id, job, failing, refused); }
      hide STAGES, End, Named, JobStateFor;
      for i := 0 to |STAGES|
        invariant tenant == old(tenant)
        invariant FirstFailing(STAGES, failing) == FirstFailing(STAGES[i..], failing)
      {
        assert STAGES[i..][0] == STAGES[i] && STAGES[i..][1..] == STAGES[i + 1..];
        var stage := STAGES[i];
        if stage in failing {
          if !refused { tenant := End(tenant, job, JobStateFor(stage), BootstrapFailed); }
          return;
        }
      }
      tenant := Named(tenant, id);
      if !refused { tenant := End(tenant, job, Finished, BootstrapFinished); }
    }

    /** Refuses while the tenant is being readied; otherwise clears everything derived from the old identity. */
    method SaveCfIdentity(tokenValid: bool) returns (ok: bool)
      modifies this`tenant
      ensures ok <==> tokenValid && old(tenant).lifecycle != Readying
      ensures !ok ==> tenant == old(tenant)
      ensures ok ==> tenant == Tenant(Configured, "", "", old(tenant).jobs)
    {
      if !tokenValid || tenant.lifecycle == Readying { return false; }
      tenant := Move(tenant, tenant.(pirDestination := "", casDestination := ""), CfIdentityConfigured);
      return true;
    }

    method ResetBootstrap() returns (ok: bool)
      modifies this`tenant
      ensures ok <==> old(tenant).lifecycle == Readying
      ensures tenant == if ok then Reset(old(tenant)) else old(tenant)
      ensures ok ==> tenant.lifecycle == NotReady && tenant.jobs.Keys == old(tenant).jobs.Keys
                     && forall j | j in tenant.jobs :: tenant.jobs[j] == if old(tenant).jobs[j] == Running then Failed else old(tenant).jobs[j]
    {
      if tenant.lifecycle != Readying { return false; }
      tenant := tenant.(jobs := FailRunning(tenant.jobs));
      ok := TransitionLifecycle(BootstrapFailed);
    }
  }

  /** What a job makes of the tenant: first is the stage that ended it, if any did. */
  function AfterJob(tenant: Tenant, id: string, job: nat, first: Option<Stage>, refused: bool): Tenant {
    match first
    case Some(stage) => if refused then tenant else End(tenant, job, JobStateFor(stage), BootstrapFailed)
    case None => if refused then Named(tenant, id) else End(Named(tenant, id), job, Finished, BootstrapFinished)
  }

  function Named(tenant: Tenant, id: string): Tenant {
    tenant.(pirDestination := PirName(id), casDestination := CasName(id))
  }

  /** The names are written before the last transaction, and only when every stage went well. A job whose first failure is
      the missing context of the central TMS waits for the operator, any other failure is one. */
  ghost function JobLeaves(tenant: Tenant, id: string, job: nat, failing: set<Stage>, refused: bool): Tenant
    requires job in tenant.jobs
  {
    var pir := if failing == {} then "CPIDELIVERY_PIR_" + id else tenant.pirDestination;
    var cas := if failing == {} then "CPIDELIVERY_CAS_" + id else tenant.casDestination;
    if refused then tenant.(pirDestination := pir, casDestination := cas)
    else if failing == {} then Tenant(Ready, pir, cas, tenant.jobs[job := Finished])
    else if CentralTmsContext in failing && (forall s | s in LOCAL :: s !in failing)
    then Tenant(NotReady, pir, cas, tenant.jobs[job := WaitingUserAction])
    else Tenant(NotReady, pir, cas, tenant.jobs[job := Failed])
  }

  lemma FirstFailingIs(failing: set<Stage>)
    ensures FirstFailing(STAGES, failing).None? <==> failing == {}
    ensures FirstFailing(STAGES, failing) == Some(CentralTmsContext)
            <==> CentralTmsContext in failing && (forall s | s in LOCAL :: s !in failing)
  {
    forall s: Stage ensures s in STAGES { EveryStage(s); }
    var later := [CentralTmsContext, SubscriberDestinations, ProviderClient, ProviderDestinations, PersistNames];
    FirstOfTwo(LOCAL, later, failing);
    assert CentralTmsContext !in LOCAL;
    hide LOCAL;
    assert later[0] == CentralTmsContext;
  }

  lemma {:induction false} FirstOfTwo(a: seq<Stage>, b: seq<Stage>, failing: set<Stage>)
    ensures FirstFailing(a + b, failing) == if FirstFailing(a, failing).Some? then FirstFailing(a, failing) else FirstFailing(b, failing)
  {
    if a == [] {
      assert a + b == b;
    } else {
      assert (a + b)[1..] == a[1..] + b;
      FirstOfTwo(a[1..], b, failing);
    }
  }

  lemma AfterJobIs(tenant: Tenant, id: string, job: nat, failing: set<Stage>, refused: bool)
    requires tenant.lifecycle == Readying && job in tenant.jobs
    ensures AfterJob(tenant, id, job, FirstFailing(STAGES, failing), refused) == JobLeaves(tenant, id, job, failing, refused)
  {
    FirstFailingIs(failing);
    hide STAGES, LOCAL, FirstFailing;
  }

  /** A job run to its end releases the tenant exactly when its last write goes through, and readies it exactly when,
      besides, no stage fails. */
  lemma ApplyReleases(tenant: Tenant, id: string, job: nat, failing: set<Stage>, refused: bool)
    requires tenant.lifecycle == Readying && job in tenant.jobs && tenant.jobs[job] == Running
    ensures var after := AfterJob(tenant, id, job, FirstFailing(STAGES, failing), refused);
            && (after.lifecycle != Readying <==> !refused) && (after.jobs[job] != Running <==> !refused)
            && (after.lifecycle == Ready <==> failing == {} && !refused)
            && (after.jobs[job] == WaitingUserAction ==> CentralTmsContext in failing && PirApi !in failing)
  {
    assert STAGES[0] == BuildApplier && STAGES[1..][0] == PirApi;
    assert forall s: Stage :: s in STAGES by {
      forall s: Stage ensures s in STAGES { EveryStage(s); }
    }
    if CentralTmsContext in failing && PirApi in failing { BeforeTms(failing); }
  }

  lemma EveryStage(s: Stage)
    ensures s in STAGES
  {
    assert STAGES[2] == CasApplication && STAGES[3] == CasStandard && STAGES[4] == DestinationService
           && STAGES[5] == CentralTmsContext && STAGES[6] == SubscriberDestinations && STAGES[7] == ProviderClient
           && STAGES[8] == ProviderDestinations && STAGES[9] == PersistNames;
    assert STAGES[0] == BuildApplier && STAGES[1] == PirApi;
  }

  lemma BeforeTms(failing: set<Stage>)
    requires PirApi in failing
    ensures FirstFailing(STAGES, failing) in {Some(BuildApplier), Some(PirApi)}
  {
    var rest := STAGES[1..];
    assert STAGES[0] == BuildApplier && rest[0] == PirApi;
  }

  // ----- The calls as stretches of a concurrent run -----

  /** An apply on its own is its claim and either its rollback or the creation of its job. */
  lemma ApplyIsSteps(s: State, w: nat, job: nat, inspection: Inspection) returns (states: seq<State>, steps: seq<Step>)
    requires w !in s.workers && job !in s.tenant.jobs && Transition(s.tenant.lifecycle, BootstrapStarted).Some?
    ensures Run(states, steps) && states[0] == s
    ensures states[|steps|].tenant == if inspection == Blocked then s.tenant.(lifecycle := NotReady)
                                      else s.tenant.(lifecycle := Readying, jobs := s.tenant.jobs[job := Running])
    ensures states[|steps|].workers == if inspection == Blocked then s.workers else s.workers[w := Applying(job)]
  {
    var a := State(s.tenant.(lifecycle := Readying), s.workers[w := Claimed]);
    assert StepsTo(s, Claim(w), a);
    if inspection == Blocked {
      var t := s.(tenant := s.tenant.(lifecycle := NotReady));
      assert t.workers == a.workers - {w};
      states, steps := [s, a, t], [Claim(w), Rollback(w, false)];
      assert StepsTo(a, steps[1], t);
    } else {
      var t := State(a.tenant.(jobs := a.tenant.jobs[job := Running]), s.workers[w := Applying(job)]);
      assert t.workers == a.workers[w := Applying(job)];
      states, steps := [s, a, t], [Claim(w), CreateJob(w, job)];
      assert StepsTo(a, steps[1], t);
    }
  }

  /** A job on its own is its persisting of the names, unless a stage fails, and its last transaction. */
  lemma JobIsSteps(s: State, w: nat, id: string, failing: set<Stage>, refused: bool) returns (states: seq<State>, steps: seq<Step>)
    requires w in s.workers && s.workers[w].Applying?
    ensures Run(states, steps) && states[0] == s
    ensures states[|steps|] == State(AfterJob(s.tenant, id, s.workers[w].job, FirstFailing(STAGES, failing), refused), s.workers - {w})
  {
    var job := s.workers[w].job;
    var first := FirstFailing(STAGES, failing);
    hide FirstFailing;
    var t := State(AfterJob(s.tenant, id, job, first, refused), s.workers - {w});
    match first
    case Some(stage) =>
      states, steps := [s, t], [Fail(w, JobStateFor(stage), refused)];
      assert StepsTo(s, steps[0], t);
    case None =>
      var a := State(Named(s.tenant, id), s.workers[w := Persisted(job)]);
      assert t.workers == a.workers - {w};
      states, steps := [s, a, t], [Persist(w, PirName(id), CasName(id)), Finish(w, refused)];
      assert StepsTo(s, steps[0], a) && StepsTo(a, steps[1], t);
  }

  /** Saving the identity is one step, let through exactly while the tenant is not being readied. */
  lemma SaveIsStep(s: State, t: State)
    ensures StepsTo(s, SaveCfIdentity, t)
            <==> s.tenant.lifecycle != Readying && t == State(Tenant(Configured, "", "", s.tenant.jobs), s.workers)
  {
  }
}
