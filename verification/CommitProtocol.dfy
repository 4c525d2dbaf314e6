/** Any number of Commit calls running against one GitHub repository, one API call per step.
    A step may also lose the reply to a write that took effect. */
module CommitProtocol {
  import opened Paths
  import opened GitObjects

  const COMMIT_MAX_RETRIES: nat := 3

  datatype Call = Call(branch: string, treePath: string, files: FileMap, message: string)

  datatype Outcome = Returned(commit: Commit) | Failed

  datatype Pc =
    | Ensuring                                             // about to ask whether the branch exists
    | Creating(root: Commit)                               // about to create the branch at an empty commit
    | Reading(attempt: nat)                                // about to read the branch tip
    | Pushing(attempt: nat, parent: Commit, staged: Commit) // about to move the branch
    | Finished(outcome: Outcome)

  datatype Proc = Proc(call: Call, pc: Pc)

  /** bases records where each branch stood at the beginning, or was created; log the calls whose commit moved it
      since, oldest first. */
  datatype State = State(heads: Refs, bases: Refs, procs: map<nat, Proc>, log: map<string, seq<nat>>)

  datatype Step =
    | Start(id: nat, call: Call)
    | Ensure(id: nat, date: int)
    | Create(id: nat, replyLost: bool)
    | Read(id: nat, date: int)
    | Push(id: nat, replyLost: bool)
    | Abort(id: nat)

  /** Any repository will do to begin with. */
  ghost predicate Init(s: State) {
    s.bases == s.heads && s.procs == map[] && s.log == map[]
  }

  /** The branch a new tenant starts from: one commit with an empty tree. */
  function Orphan(branch: string, date: int): Commit {
    Root(map[], "init: " + branch, date)
  }

  /** The tree the call wants on top of a given commit. */
  function Stored(call: Call, tip: Commit): Tree {
    Overlay(tip.tree, call.treePath, call.files)
  }

  function NewCommit(call: Call, tip: Commit, date: int): Commit {
    Child(tip, Stored(call, tip), call.message, date)
  }

  function At(s: State, id: nat, pc: Pc): State
    requires id in s.procs
  {
    s.(procs := s.procs[id := s.procs[id].(pc := pc)])
  }

  function Logged(s: State, branch: string): seq<nat> {
    if branch in s.log then s.log[branch] else []
  }

  predicate Enabled(s: State, step: Step) {
    match step
    case Start(id, call) => id !in s.procs && Canonical(call.treePath) && CanonicalFiles(call.files)
    case Ensure(id, _) => id in s.procs && s.procs[id].pc.Ensuring?
    case Create(id, _) => id in s.procs && s.procs[id].pc.Creating?
    case Read(id, _) => id in s.procs && s.procs[id].pc.Reading? && s.procs[id].call.branch in s.heads
    case Push(id, _) => id in s.procs && s.procs[id].pc.Pushing?
    case Abort(id) => id in s.procs && !s.procs[id].pc.Finished?
  }

  /** The effect of moving a branch on the refs and on the log. */
  function Moved(s: State, id: nat, commit: Commit): State
    requires id in s.procs
  {
    var branch := s.procs[id].call.branch;
    if !FastForwards(s.heads, branch, commit) || s.heads[branch] == commit then s
    else s.(heads := UpdateRef(s.heads, branch, commit),
            log := s.log[branch := Logged(s, branch) + [id]])
  }

  function Apply(s: State, step: Step): State
    requires Enabled(s, step)
  {
    match step
    case Start(id, call) => s.(procs := s.procs[id := Proc(call, Ensuring)])
    case Ensure(id, date) =>
      var call := s.procs[id].call;
      At(s, id, if call.branch in s.heads then Reading(0) else Creating(Orphan(call.branch, date)))
    case Create(id, replyLost) =>
      var Proc(call, Creating(root)) := s.procs[id];
      var created := s.(heads := CreateRef(s.heads, call.branch, root), bases := CreateRef(s.bases, call.branch, root));
      At(created, id, if replyLost then Finished(Failed) else Reading(0))
    case Read(id, date) =>
      var call, attempt := s.procs[id].call, s.procs[id].pc.attempt;
      var tip := s.heads[call.branch];
      At(s, id, if Stored(call, tip) == tip.tree then Finished(Returned(tip))
                else Pushing(attempt, tip, NewCommit(call, tip, date)))
    case Push(id, replyLost) =>
      var Pushing(attempt, _, staged) := s.procs[id].pc;
      var accepted := FastForwards(s.heads, s.procs[id].call.branch, staged);
      At(Moved(s, id, staged), id,
         if replyLost then Finished(Failed)
         else if accepted then Finished(Returned(staged))
         else if attempt + 1 < COMMIT_MAX_RETRIES then Reading(attempt + 1)
         else Finished(Failed))
    case Abort(id) => At(s, id, Finished(Failed))
  }

  ghost predicate StepsTo(s: State, step: Step, t: State) {
    Enabled(s, step) && t == Apply(s, step)
  }

  ghost predicate Next(s: State, t: State) {
    exists step :: StepsTo(s, step, t)
  }

  ghost predicate Run(states: seq<State>) {
    && states != []
    && Init(states[0])
    && forall i | 0 <= i < |states| - 1 :: Next(states[i], states[i + 1])
  }

  // ----- What every step keeps -----

  /** tip is what running the calls of ids one after the other leads to from base. */
  ghost predicate Serial(procs: map<nat, Proc>, branch: string, ids: seq<nat>, base: Commit, tip: Commit)
    decreases |ids|
  {
    if ids == [] then tip == base
    else
      && tip.Child?
      && var last := ids[|ids| - 1];
      && last in procs
      && procs[last].call.branch == branch
      && tip == NewCommit(procs[last].call, tip.parent, tip.date)
      && tip.tree != tip.parent.tree
      && Serial(procs, branch, ids[..|ids| - 1], base, tip.parent)
  }

  ghost predicate Distinct(ids: seq<nat>) {
    forall i, j | 0 <= i < j < |ids| :: ids[i] != ids[j]
  }

  /** The commit lies on the branch, at its base or later. */
  ghost predicate Within(s: State, branch: string, commit: Commit) {
    && branch in s.heads && branch in s.bases
    && Ancestor(s.bases[branch], commit) && Ancestor(commit, s.heads[branch])
  }

  ghost predicate ProcOk(s: State, id: nat)
    requires id in s.procs
  {
    var Proc(call, pc) := s.procs[id];
    && Canonical(call.treePath) && CanonicalFiles(call.files)
    && (pc.Creating? ==> pc.root.Root? && pc.root.tree == map[])
    && (pc.Reading? ==> call.branch in s.heads)
    && (pc.Pushing? ==>
          && call.branch in s.heads
          && Within(s, call.branch, pc.parent)
          && pc.staged == NewCommit(call, pc.parent, pc.staged.date)
          && pc.staged.tree != pc.parent.tree)
    && (pc.Finished? && pc.outcome.Returned? ==>
          && call.branch in s.heads
          && Within(s, call.branch, pc.outcome.commit)
          && Holds(pc.outcome.commit.tree, call.treePath, call.files))
  }

  ghost predicate LogOk(s: State, branch: string) {
    && (branch in s.heads <==> branch in s.bases)
    && (branch in s.heads ==> Serial(s.procs, branch, Logged(s, branch), s.bases[branch], s.heads[branch]))
    && (branch !in s.heads ==> Logged(s, branch) == [])
    && Distinct(Logged(s, branch))
    && (forall id | id in Logged(s, branch) :: id in s.procs && s.procs[id].pc.Finished?)
    && (forall k | 0 <= k < |Logged(s, branch)| && branch in s.bases :: ReturnedAt(s.procs, Logged(s, branch)[k], s.bases[branch], k))
  }

  /** A logged call that returned did so with its own commit, the k-th after the base. */
  ghost predicate ReturnedAt(procs: map<nat, Proc>, id: nat, base: Commit, k: nat) {
    (id in procs && procs[id].pc.Finished? && procs[id].pc.outcome.Returned?) ==>
      Depth(procs[id].pc.outcome.commit) == Depth(base) + k + 1
  }

  ghost predicate Inv(s: State) {
    && (forall id | id in s.procs :: ProcOk(s, id))
    && (forall branch :: LogOk(s, branch))
  }

  lemma {:induction false} SerialSameCalls(procs: map<nat, Proc>, after: map<nat, Proc>, branch: string, ids: seq<nat>, base: Commit, tip: Commit)
    requires Serial(procs, branch, ids, base, tip)
    requires forall id | id in procs :: id in after && after[id].call == procs[id].call
    ensures Serial(after, branch, ids, base, tip)
    decreases |ids|
  {
    if ids != [] {
      SerialSameCalls(procs, after, branch, ids[..|ids| - 1], base, tip.parent);
    }
  }

  lemma {:induction false} SerialDepth(procs: map<nat, Proc>, branch: string, ids: seq<nat>, base: Commit, tip: Commit)
    requires Serial(procs, branch, ids, base, tip)
    ensures Depth(tip) == Depth(base) + |ids|
    ensures Ancestor(base, tip)
    decreases |ids|
  {
    if ids != [] {
      SerialDepth(procs, branch, ids[..|ids| - 1], base, tip.parent);
    }
  }

  /** Steps that move no branch and no finished call keep everything else in order. */
  lemma KeepLogs(s: State, t: State)
    requires Inv(s)
    requires t.log == s.log
    requires forall id | id in s.procs :: id in t.procs && t.procs[id].call == s.procs[id].call
    requires forall id | id in s.procs && s.procs[id].pc.Finished? :: t.procs[id] == s.procs[id]
    requires BranchesKept(s, t)
    requires forall branch | branch !in s.heads :: branch in t.heads <==> branch in t.bases
    requires forall branch | branch in t.heads && branch !in s.heads :: t.heads[branch] == t.bases[branch]
    ensures forall branch :: LogOk(t, branch)
  {
    forall branch ensures LogOk(t, branch) {
      assert LogOk(s, branch);
      if branch in s.heads {
        SerialSameCalls(s.procs, t.procs, branch, Logged(s, branch), s.bases[branch], s.heads[branch]);
      }
    }
  }

  /** Branches that exist stay where they are. */
  ghost predicate BranchesKept(s: State, t: State) {
    && (forall branch | branch in s.heads :: branch in t.heads && t.heads[branch] == s.heads[branch])
    && (forall branch | branch in s.bases :: branch in t.bases && t.bases[branch] == s.bases[branch])
  }

  /** A push that moves the branch extends that branch's serial history by one call. */
  lemma MovedLogs(s: State, id: nat, pc: Pc)
    requires Inv(s) && id in s.procs && s.procs[id].pc.Pushing? && pc.Finished?
    requires s.heads[s.procs[id].call.branch] == s.procs[id].pc.parent
    requires pc.outcome.Returned? ==> pc.outcome.commit == s.procs[id].pc.staged
    ensures forall branch :: LogOk(At(Moved(s, id, s.procs[id].pc.staged), id, pc), branch)
  {
    hide Overlay, Canonical, CanonicalFiles, Holds;
    var Proc(call, Pushing(_, parent, staged)) := s.procs[id];
    assert ProcOk(s, id);
    var t := At(Moved(s, id, staged), id, pc);
    forall branch ensures LogOk(t, branch) {
      if branch == call.branch {
        MovedLog(s, id, pc);
      } else {
        assert LogOk(s, branch);
        if branch in s.heads {
          SerialSameCalls(s.procs, t.procs, branch, Logged(s, branch), s.bases[branch], s.heads[branch]);
        }
      }
    }
  }

  lemma MovedLog(s: State, id: nat, pc: Pc)
    requires Inv(s) && id in s.procs && s.procs[id].pc.Pushing? && pc.Finished?
    requires s.heads[s.procs[id].call.branch] == s.procs[id].pc.parent
    requires pc.outcome.Returned? ==> pc.outcome.commit == s.procs[id].pc.staged
    ensures LogOk(At(Moved(s, id, s.procs[id].pc.staged), id, pc), s.procs[id].call.branch)
  {
    hide Overlay, Canonical, CanonicalFiles, Holds;
    var Proc(call, Pushing(_, parent, staged)) := s.procs[id];
    var t := At(Moved(s, id, staged), id, pc);
    var ids := Logged(s, call.branch);
    assert ProcOk(s, id) && LogOk(s, call.branch);
    assert Ancestor(parent, staged);
    var base := s.bases[call.branch];
    SerialSameCalls(s.procs, t.procs, call.branch, ids, base, parent);
    SerialDepth(s.procs, call.branch, ids, base, parent);
    assert Logged(t, call.branch) == ids + [id];
    assert (ids + [id])[..|ids|] == ids;
    assert id !in ids;
    forall k | 0 <= k < |ids + [id]| ensures ReturnedAt(t.procs, (ids + [id])[k], base, k) {
      if k < |ids| { assert ReturnedAt(s.procs, ids[k], base, k); }
    }
  }

  lemma MovedProcs(s: State, id: nat, pc: Pc)
    requires Inv(s) && id in s.procs && s.procs[id].pc.Pushing?
    requires s.heads[s.procs[id].call.branch] == s.procs[id].pc.parent
    requires pc.Finished? && (pc.outcome.Returned? ==> pc.outcome.commit == s.procs[id].pc.staged)
    ensures forall other :: other in s.procs ==> ProcOk(At(Moved(s, id, s.procs[id].pc.staged), id, pc), other)
  {
    var Proc(call, Pushing(_, parent, staged)) := s.procs[id];
    assert ProcOk(s, id);
    OverlayHolds(parent.tree, call.treePath, call.files);
    var t := At(Moved(s, id, staged), id, pc);
    assert Ancestor(parent, staged);
    AncestorTransitive(s.bases[call.branch], parent, staged);
    forall other | other in s.procs ensures ProcOk(t, other) {
      assert ProcOk(s, other);
      if other != id && t.procs[other].call.branch == call.branch {
        var opc := t.procs[other].pc;
        if opc.Pushing? {
          AncestorTransitive(opc.parent, parent, staged);
        } else if opc.Finished? && opc.outcome.Returned? {
          AncestorTransitive(opc.outcome.commit, parent, staged);
        }
      }
    }
  }

  /** A tip is on its own branch. */
  lemma TipWithin(s: State, branch: string)
    requires Inv(s) && branch in s.heads
    ensures Within(s, branch, s.heads[branch])
  {
    assert LogOk(s, branch);
    SerialDepth(s.procs, branch, Logged(s, branch), s.bases[branch], s.heads[branch]);
  }

  lemma SameBranches(s: State)
    requires Inv(s)
    ensures s.heads.Keys == s.bases.Keys
  {
    forall branch ensures branch in s.heads <==> branch in s.bases { assert LogOk(s, branch); }
  }

  lemma InvPush(s: State, id: nat, replyLost: bool)
    requires Inv(s) && Enabled(s, Push(id, replyLost))
    ensures Inv(Apply(s, Push(id, replyLost)))
  {
    var t := Apply(s, Push(id, replyLost));
    var Proc(call, pc) := s.procs[id];
    assert ProcOk(s, id);
    FastForwardIsCompareAndSet(s.heads, call.branch, pc.parent, pc.staged);
    if FastForwards(s.heads, call.branch, pc.staged) && s.heads[call.branch] != pc.staged {
      MovedLogs(s, id, t.procs[id].pc);
      MovedProcs(s, id, t.procs[id].pc);
    } else {
      SameBranches(s);
      KeepLogs(s, t);
      PushedOk(s, id, replyLost);
      hide LogOk, Overlay, Stored;
      KeepProcs(s, t, id);
    }
  }

  /** A push that was refused, or whose commit somebody else had already stored. */
  lemma PushedOk(s: State, id: nat, replyLost: bool)
    requires Inv(s) && Enabled(s, Push(id, replyLost))
    requires !FastForwards(s.heads, s.procs[id].call.branch, s.procs[id].pc.staged) || s.heads[s.procs[id].call.branch] == s.procs[id].pc.staged
    ensures ProcOk(Apply(s, Push(id, replyLost)), id)
  {
    hide LogOk;
    var Proc(call, pc) := s.procs[id];
    assert ProcOk(s, id);
    OverlayHolds(pc.parent.tree, call.treePath, call.files);
    hide Overlay, Holds;
    assert Ancestor(pc.parent, pc.staged);
    AncestorTransitive(s.bases[call.branch], pc.parent, pc.staged);
  }

  /** Steps of one call that move no existing branch leave every other call as it was. */
  lemma KeepProcs(s: State, t: State, id: nat)
    requires Inv(s)
    requires t.procs.Keys == s.procs.Keys + {id} && ProcOk(t, id)
    requires forall other | other in s.procs && other != id :: t.procs[other] == s.procs[other]
    requires BranchesKept(s, t)
    ensures forall other :: other in t.procs ==> ProcOk(t, other)
  {
    forall other | other in t.procs ensures ProcOk(t, other) {
      if other != id { assert ProcOk(s, other); }
    }
  }

  lemma InvRead(s: State, id: nat, date: int)
    requires Inv(s) && Enabled(s, Read(id, date))
    ensures Inv(Apply(s, Read(id, date)))
  {
    var t := Apply(s, Read(id, date));
    var call := s.procs[id].call;
    assert ProcOk(s, id);
    TipWithin(s, call.branch);
    HoldsIffUnchanged(s.heads[call.branch].tree, call.treePath, call.files);
    SameBranches(s);
    hide Serial, Distinct, LogOk, Overlay, Canonical, CanonicalFiles, Holds;
    KeepLogs(s, t);
    KeepProcs(s, t, id);
  }

  lemma InvStep(s: State, step: Step)
    requires Inv(s) && Enabled(s, step)
    ensures Inv(Apply(s, step))
  {
    hide Serial, Distinct, LogOk, Overlay, Canonical, CanonicalFiles, Holds, Ancestor;
    var t := Apply(s, step);
    if step.Push? {
      InvPush(s, step.id, step.replyLost);
    } else if step.Read? {
      InvRead(s, step.id, step.date);
    } else {
      SameBranches(s);
      KeepLogs(s, t);
      if step.id in s.procs { assert ProcOk(s, step.id); }
      KeepProcs(s, t, step.id);
    }
  }

  lemma {:induction false} RunInv(states: seq<State>, i: nat)
    requires Run(states) && i < |states|
    ensures Inv(states[i])
  {
    if i > 0 {
      RunInv(states, i - 1);
      assert Next(states[i - 1], states[i - 1 + 1]);
      var step :| StepsTo(states[i - 1], step, states[i]);
      InvStep(states[i - 1], step);
    }
  }

  // ----- What holds of every run -----

  /** Every branch a run reaches is one serial execution of distinct calls from where the branch stood at the beginning,
      or from an empty tree when it did not exist. A call that returned either is in that history at the commit it
      returned, or found its files already stored there; either way its commit stays in the branch and holds all its
      files. */
  lemma Serialisable(states: seq<State>, i: nat, branch: string)
    requires Run(states) && i < |states| && branch in states[i].heads
    ensures branch in states[i].bases
    ensures Serial(states[i].procs, branch, Logged(states[i], branch), states[i].bases[branch], states[i].heads[branch])
    ensures branch in states[0].heads ==> states[i].bases[branch] == states[0].heads[branch]
    ensures branch !in states[0].heads ==> states[i].bases[branch].Root? && states[i].bases[branch].tree == map[]
    ensures Distinct(Logged(states[i], branch))
    ensures forall id | id in states[i].procs && states[i].procs[id].call.branch == branch
                        && states[i].procs[id].pc.Finished? && states[i].procs[id].pc.outcome.Returned? ::
              var commit := states[i].procs[id].pc.outcome.commit;
              && Within(states[i], branch, commit)
              && Holds(commit.tree, states[i].procs[id].call.treePath, states[i].procs[id].call.files)
              && (forall k | 0 <= k < |Logged(states[i], branch)| && Logged(states[i], branch)[k] == id ::
                    Depth(commit) == Depth(states[i].bases[branch]) + k + 1)
  {
    RunInv(states, i);
    var s := states[i];
    assert LogOk(s, branch);
    BasesStand(states, i, branch);
    forall id | id in s.procs && s.procs[id].call.branch == branch && s.procs[id].pc.Finished? && s.procs[id].pc.outcome.Returned?
      ensures Within(s, branch, s.procs[id].pc.outcome.commit)
      ensures Holds(s.procs[id].pc.outcome.commit.tree, s.procs[id].call.treePath, s.procs[id].call.files)
    {
      assert ProcOk(s, id);
    }
  }

  lemma {:induction false} BasesStand(states: seq<State>, i: nat, branch: string)
    requires Run(states) && i < |states|
    ensures branch in states[0].heads ==> branch in states[i].bases && states[i].bases[branch] == states[0].heads[branch]
    ensures branch !in states[0].heads && branch in states[i].bases ==> states[i].bases[branch].Root? && states[i].bases[branch].tree == map[]
  {
    if i > 0 {
      BasesStand(states, i - 1, branch);
      RunInv(states, i - 1);
      assert Next(states[i - 1], states[i - 1 + 1]);
      var step :| StepsTo(states[i - 1], step, states[i]);
      if step.Create? { assert ProcOk(states[i - 1], step.id); }
    }
  }

  /** No branch is lost or moves back, and no base moves at all. */
  ghost predicate BranchesAdvance(s: State, t: State) {
    && (forall branch | branch in s.heads :: branch in t.heads && Ancestor(s.heads[branch], t.heads[branch]))
    && (forall branch | branch in s.bases :: branch in t.bases && t.bases[branch] == s.bases[branch])
  }

  lemma StepAdvances(s: State, step: Step)
    requires Enabled(s, step)
    ensures BranchesAdvance(s, Apply(s, step))
  {
    hide Overlay, Stored;
  }

  lemma StaysWithin(s: State, t: State, branch: string, commit: Commit)
    requires Within(s, branch, commit) && BranchesAdvance(s, t)
    ensures Within(t, branch, commit)
  {
    AncestorTransitive(commit, s.heads[branch], t.heads[branch]);
  }

  /** A branch never moves back: what a tip once held stays in its history. */
  lemma {:induction false} HistoryOnlyGrows(states: seq<State>, i: nat, j: nat, branch: string)
    requires Run(states) && i <= j < |states| && branch in states[i].heads
    ensures branch in states[j].heads && Ancestor(states[i].heads[branch], states[j].heads[branch])
    decreases j
  {
    hide Enabled, Apply;
    if i < j {
      HistoryOnlyGrows(states, i, j - 1, branch);
      var s := states[j - 1];
      assert Next(s, states[j - 1 + 1]);
      var step :| StepsTo(s, step, states[j]);
      StepAdvances(s, step);
      AncestorTransitive(states[i].heads[branch], s.heads[branch], states[j].heads[branch]);
    }
  }

  predicate Writes(call: Call, p: string) {
    Under(call.treePath, p) && p[|call.treePath| + 1..] in call.files
  }

  /** Every commit since the base changes its parent's tree by exactly one logged call's files,
      and no path outside that call's directory changes. */
  lemma {:induction false} EveryLink(procs: map<nat, Proc>, branch: string, ids: seq<nat>, base: Commit, tip: Commit, link: Commit)
    requires Serial(procs, branch, ids, base, tip)
    requires Ancestor(link, tip) && Depth(link) > Depth(base)
    ensures 0 < Depth(link) - Depth(base) <= |ids| && ids[Depth(link) - Depth(base) - 1] in procs && link.Child?
    ensures var call := procs[ids[Depth(link) - Depth(base) - 1]].call;
            && link.tree == Stored(call, link.parent)
            && forall p | !Under(call.treePath, p) ::
                 (p in link.tree <==> p in link.parent.tree) && (p in link.tree ==> link.tree[p] == link.parent.tree[p])
    decreases |ids|
  {
    SerialDepth(procs, branch, ids, base, tip);
    if ids == [] {
      AncestorDepth(link, tip);
    } else if link != tip {
      EveryLink(procs, branch, ids[..|ids| - 1], base, tip.parent, link);
    }
  }

  /** The history of a commit on the branch is the beginning of the branch's. */
  lemma {:induction false} SerialPrefix(procs: map<nat, Proc>, branch: string, ids: seq<nat>, base: Commit, tip: Commit, commit: Commit)
    requires Serial(procs, branch, ids, base, tip) && Ancestor(base, commit) && Ancestor(commit, tip)
    ensures Depth(base) <= Depth(commit) <= Depth(base) + |ids|
    ensures Serial(procs, branch, ids[..Depth(commit) - Depth(base)], base, commit)
    decreases |ids|
  {
    SerialDepth(procs, branch, ids, base, tip);
    AncestorDepth(base, commit);
    AncestorDepth(commit, tip);
    if commit == tip {
      assert ids[..|ids|] == ids;
    } else if ids != [] {
      var rest := ids[..|ids| - 1];
      SerialPrefix(procs, branch, rest, base, tip.parent, commit);
      assert rest[..Depth(commit) - Depth(base)] == ids[..Depth(commit) - Depth(base)];
    }
  }

  lemma StoredAt(call: Call, tip: Commit, p: string)
    ensures p in Stored(call, tip) <==> Writes(call, p) || p in tip.tree
    ensures Writes(call, p) ==> Stored(call, tip)[p] == call.files[p[|call.treePath| + 1..]]
    ensures !Writes(call, p) && p in tip.tree ==> Stored(call, tip)[p] == tip.tree[p]
  {
    if Under(call.treePath, p) {
      assert p == call.treePath + "/" + p[|call.treePath| + 1..];
      OverlayAt(tip.tree, call.treePath, call.files, p[|call.treePath| + 1..]);
    } else {
      OverlayOutside(tip.tree, call.treePath, call.files, p);
    }
  }

  /** The k-th of the calls is the last one that stores something at p. */
  ghost predicate LastWrite(procs: map<nat, Proc>, ids: seq<nat>, k: nat, p: string) {
    && k < |ids|
    && (forall id | id in ids :: id in procs)
    && Writes(procs[ids[k]].call, p)
    && (forall m | k < m < |ids| :: !Writes(procs[ids[m]].call, p))
  }

  lemma LastWriteSnoc(procs: map<nat, Proc>, ids: seq<nat>, k: nat, p: string)
    requires ids != [] && forall id | id in ids :: id in procs
    ensures LastWrite(procs, ids, k, p) <==>
              if Writes(procs[ids[|ids| - 1]].call, p) then k == |ids| - 1 else LastWrite(procs, ids[..|ids| - 1], k, p)
  {
    hide Writes;
    var last := |ids| - 1;
    assert forall m | 0 <= m < last :: ids[..last][m] == ids[m];
    assert forall id | id in ids[..last] :: id in ids;
  }

  lemma {:induction false} SerialCalls(procs: map<nat, Proc>, branch: string, ids: seq<nat>, base: Commit, tip: Commit)
    requires Serial(procs, branch, ids, base, tip)
    ensures forall id | id in ids :: id in procs
    decreases |ids|
  {
    if ids != [] {
      SerialCalls(procs, branch, ids[..|ids| - 1], base, tip.parent);
      assert ids == ids[..|ids| - 1] + [ids[|ids| - 1]];
    }
  }

  /** No update is lost: a path holds what the last logged call that names it stored there; a path no logged call names
      is as it was in the base. */
  lemma {:induction false} LastWriterWins(procs: map<nat, Proc>, branch: string, ids: seq<nat>, base: Commit, tip: Commit, p: string)
    requires Serial(procs, branch, ids, base, tip)
    ensures forall k: nat | LastWrite(procs, ids, k, p) ::
              p in tip.tree && tip.tree[p] == procs[ids[k]].call.files[p[|procs[ids[k]].call.treePath| + 1..]]
    ensures (forall k: nat :: !LastWrite(procs, ids, k, p)) ==>
              (p in tip.tree <==> p in base.tree) && (p in tip.tree ==> tip.tree[p] == base.tree[p])
    decreases |ids|
  {
    hide Writes, Stored, Overlay, Under;
    if ids != [] {
      var last := |ids| - 1;
      var call := procs[ids[last]].call;
      LastWriterWins(procs, branch, ids[..last], base, tip.parent, p);
      SerialCalls(procs, branch, ids, base, tip);
      StoredAt(call, tip.parent, p);
      forall k: nat
        ensures LastWrite(procs, ids, k, p) <==> if Writes(call, p) then k == last else LastWrite(procs, ids[..last], k, p)
      {
        LastWriteSnoc(procs, ids, k, p);
      }
      assert forall k: nat | k < last :: ids[..last][k] == ids[k];
      if Writes(call, p) {
        assert LastWrite(procs, ids, last, p);
      }
    }
  }
}
