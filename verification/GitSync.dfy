/** Any number of gitSync calls, on any number of instances, over one snapshot table and one repository.
    Every SQL statement and every GitHub call is a step of its own; a step may fail before
    or after its effect, and a worker may die at any point. */
module GitSync {
  import opened Strings
  import opened Paths
  import opened GitObjects
  import opened Manifest
  import opened Snapshots
  import CP = CommitProtocol

  datatype Request = Request(artifact: string, packageId: string, tenantId: nat, tenantName: string, files: FileMap)

  /** How a statement went: it worked, it failed without effect, or it took effect and the reply was lost. */
  datatype Fault = Fine | Before | After

  datatype Pc =
    | Claiming                                                    // about to insert the row
    | Looking                                                     // the insert failed; about to read the row
    | Restaling                                                   // saw a stale pending row
    | Refailing                                                   // saw a failed row
    | Checking(stamp: int)                                        // owner, about to ask for the tag
    | Storing(stamp: int)                                         // owner, no tag found
    | Committing(stamp: int, call: nat)                           // owner, Commit under way
    | Tagging(stamp: int, commit: Commit)                         // owner, committed
    | Writing(stamp: int, status: Status, result: Option<Commit>) // owner, about to write the outcome
    | Stopped

  datatype Worker = Worker(req: Request, version: string, pc: Pc)

  datatype State = State(now: int, rows: Rows, tags: Refs, store: CP.State, workers: map<nat, Worker>)

  function Dir(req: Request): string { req.packageId + "/" + req.artifact }

  function TagName(tenantName: string, packageId: string, artifact: string, version: string): string {
    "tenant/" + (tenantName + "/" + (packageId + "/" + (artifact + "/" + version)))
  }

  function TagOf(w: Worker): string {
    TagName(w.req.tenantName, w.req.packageId, w.req.artifact, w.version)
  }

  function KeyOf(w: Worker): Key { Key(w.req.artifact, w.version, w.req.tenantId) }

  function CallOf(w: Worker, yaml: string, message: string): CP.Call {
    CP.Call("tenant/" + w.req.tenantName, Dir(w.req), w.req.files[".cpi-sync.yaml" := yaml], message)
  }

  /** Names as CPI and the zip reader deliver them. */
  predicate WellNamed(req: Request) {
    && '/' !in req.tenantName
    && '/' !in req.packageId && Plain(req.packageId)
    && '/' !in req.artifact && Plain(req.artifact)
    && CanonicalFiles(req.files)
  }

  datatype Step =
    | Tick(seconds: nat)
    | Begin(w: nat, req: Request)
    | InsertRow(w: nat, stamp: int, fault: Fault)
    | Look(w: nat)
    | Restale(w: nat, cutoff: int, stamp: int, fault: Fault)
    | Refail(w: nat, stamp: int, fault: Fault)
    | CheckTag(w: nat)
    | GiveUp(w: nat)                                              // any error before the commit
    | Spawn(w: nat, call: nat, yaml: string, message: string)
    | Store(step: CP.Step)                                        // one step of one Commit call
    | Collect(w: nat)
    | Tag(w: nat, fault: Fault)
    | Write(w: nat, fault: Fault)
    | Die(w: nat)
    | InvalidateRow(key: Key)
    | NoteNotFound(artifact: string, tenantId: nat)

  ghost predicate Init(s: State) {
    s.rows == map[] && s.tags == map[] && s.workers == map[] && CP.Init(s.store)
  }

  predicate IsOwner(pc: Pc) {
    pc.Checking? || pc.Storing? || pc.Committing? || pc.Tagging? || pc.Writing?
  }

  predicate Enabled(s: State, step: Step) {
    match step
    case Tick(_) => true
    case Begin(w, req) => w !in s.workers && WellNamed(req) && ExtractVersion(req.files).Some?
    case InsertRow(w, stamp, _) => w in s.workers && s.workers[w].pc == Claiming && stamp <= s.now
    case Look(w) => w in s.workers && s.workers[w].pc == Looking
    case Restale(w, cutoff, stamp, _) => w in s.workers && s.workers[w].pc == Restaling && cutoff <= stamp <= s.now
    case Refail(w, stamp, _) => w in s.workers && s.workers[w].pc == Refailing && stamp <= s.now
    case CheckTag(w) => w in s.workers && s.workers[w].pc.Checking?
    case GiveUp(w) => w in s.workers && (s.workers[w].pc.Checking? || s.workers[w].pc.Storing?)
    case Spawn(w, call, yaml, message) =>
      w in s.workers && s.workers[w].pc.Storing? && CP.Enabled(s.store, CP.Start(call, CallOf(s.workers[w], yaml, message)))
    case Store(step) => !step.Start? && CP.Enabled(s.store, step)
    case Collect(w) =>
      && w in s.workers && s.workers[w].pc.Committing?
      && s.workers[w].pc.call in s.store.procs && s.store.procs[s.workers[w].pc.call].pc.Finished?
    case Tag(w, _) => w in s.workers && s.workers[w].pc.Tagging?
    case Write(w, _) => w in s.workers && s.workers[w].pc.Writing?
    case Die(w) => w in s.workers
    case InvalidateRow(_) => true
    case NoteNotFound(_, _) => true
  }

  function At(s: State, w: nat, pc: Pc): State
    requires w in s.workers
  {
    s.(workers := s.workers[w := s.workers[w].(pc := pc)])
  }

  /** A statement's effect on the table and whether its worker learns that it matched a row. */
  function Took(s: State, w: nat, rows: Rows, matched: bool, stamp: int, otherwise: Pc, fault: Fault): State
    requires w in s.workers
  {
    match fault
    case Fine => At(s.(rows := rows), w, if matched then Checking(stamp) else otherwise)
    case Before => At(s, w, otherwise)
    case After => At(s.(rows := rows), w, otherwise)
  }

  function FirstRow(w: Worker, stamp: int): Row {
    Row(Pending, Dir(w.req), TagOf(w), None, stamp)
  }

  function Apply(s: State, step: Step): State
    requires Enabled(s, step)
  {
    match step
    case Tick(seconds) => s.(now := s.now + seconds)
    case Begin(w, req) => s.(workers := s.workers[w := Worker(req, ExtractVersion(req.files).value, Claiming)])
    case InsertRow(w, stamp, fault) =>
      var key := KeyOf(s.workers[w]);
      Took(s, w, Insert(s.rows, key, FirstRow(s.workers[w], stamp)), key !in s.rows, stamp, Looking, fault)
    case Look(w) =>
      var key := KeyOf(s.workers[w]);
      At(s, w,
         if key !in s.rows then Stopped
         else match s.rows[key].status
           case Completed => Stopped
           case Pending => if s.now - s.rows[key].triggeredAt < PENDING_TIMEOUT then Stopped else Restaling
           case Failed => Refailing
           case NotFound => Stopped)
    case Restale(w, cutoff, stamp, fault) =>
      var key := KeyOf(s.workers[w]);
      Took(s, w, TakeStale(s.rows, key, cutoff, stamp), IsStale(s.rows, key, cutoff), stamp, Stopped, fault)
    case Refail(w, stamp, fault) =>
      var key := KeyOf(s.workers[w]);
      Took(s, w, TakeFailed(s.rows, key, stamp), IsFailed(s.rows, key), stamp, Stopped, fault)
    case CheckTag(w) =>
      var tag := TagOf(s.workers[w]);
      var stamp := s.workers[w].pc.stamp;
      At(s, w, if tag in s.tags then Writing(stamp, Completed, Some(s.tags[tag])) else Storing(stamp))
    case GiveUp(w) => At(s, w, Writing(s.workers[w].pc.stamp, Failed, None))
    case Spawn(w, call, yaml, message) =>
      At(s.(store := CP.Apply(s.store, CP.Start(call, CallOf(s.workers[w], yaml, message)))), w,
         Committing(s.workers[w].pc.stamp, call))
    case Store(step) => s.(store := CP.Apply(s.store, step))
    case Collect(w) =>
      var Committing(stamp, call) := s.workers[w].pc;
      At(s, w,
         match s.store.procs[call].pc.outcome
         case Returned(commit) => Tagging(stamp, commit)
         case Failed => Writing(stamp, Status.Failed, None))
    case Tag(w, fault) =>
      var Tagging(stamp, commit) := s.workers[w].pc;
      var tag := TagOf(s.workers[w]);
      var t := if fault == Before then s else s.(tags := CreateRef(s.tags, tag, commit));
      At(t, w, Writing(stamp, if fault == Fine && tag !in s.tags then Completed else Failed, Some(commit)))
    case Write(w, fault) =>
      var Writing(_, status, commit) := s.workers[w].pc;
      var t := if fault == Before then s else s.(rows := Complete(s.rows, KeyOf(s.workers[w]), status, commit));
      At(t, w, Stopped)
    case Die(w) => At(s, w, Stopped)
    case InvalidateRow(key) => s.(rows := Invalidate(s.rows, key))
    case NoteNotFound(artifact, tenantId) => s.(rows := RecordNotFound(s.rows, artifact, tenantId, s.now))
  }

  /** A run: the states passed through and the step taken in each. */
  ghost predicate Run(states: seq<State>, steps: seq<Step>) {
    && |states| == |steps| + 1
    && Init(states[0])
    && forall i | 0 <= i < |steps| :: Enabled(states[i], steps[i]) && states[i + 1] == Apply(states[i], steps[i])
  }
}
