/** What a sync leaves besides its row: the tag at the commit its row names. */
module GitTagged {
  import opened Strings
  import opened GitObjects
  import opened Manifest
  import opened Snapshots
  import opened GitSync
  import opened GitTruth
  import CP = CommitProtocol

  /** No tag goes or moves. */
  ghost predicate TagsKept(before: Refs, after: Refs) {
    forall tag | tag in before :: tag in after && after[tag] == before[tag]
  }

  lemma StepKeepsTags(s: State, step: Step)
    requires Enabled(s, step)
    ensures TagsKept(s.tags, Apply(s, step).tags)
  {
    hide CP.Enabled, CP.Apply, ExtractVersion, WellNamed, TagName, CallOf, TagOf, Dir, Complete, Invalidate, RecordNotFound;
    hide Insert, TakeStale, TakeFailed, IsStale, IsFailed, KeyOf;
  }

  /** A tag, once there, names the same commit for good. */
  lemma {:induction false} TagsNeverMove(states: seq<State>, steps: seq<Step>, i: nat, j: nat, tag: string)
    requires Run(states, steps) && i <= j < |states| && tag in states[i].tags
    ensures tag in states[j].tags && states[j].tags[tag] == states[i].tags[tag]
    decreases j
  {
    hide Apply, Enabled;
    if i < j {
      TagsNeverMove(states, steps, i, j - 1, tag);
      StepKeepsTags(states[j - 1], steps[j - 1]);
    }
  }

  /** The worker's tag is there, at the commit it is about to enter as completed. */
  ghost predicate WritesTagged(tags: Refs, worker: Worker) {
    worker.pc.Writing? && worker.pc.status == Completed ==>
      worker.pc.result.Some? && TagOf(worker) in tags && tags[TagOf(worker)] == worker.pc.result.value
  }

  ghost predicate AllTagged(s: State) {
    forall w | w in s.workers :: WritesTagged(s.tags, s.workers[w])
  }

  lemma StepTagged(s: State, step: Step, w: nat)
    requires Enabled(s, step) && AllTagged(s) && w in Apply(s, step).workers
    ensures WritesTagged(Apply(s, step).tags, Apply(s, step).workers[w])
  {
    hide CP.Enabled, CP.Apply, ExtractVersion, WellNamed, TagName, CallOf, Dir, Complete, Invalidate, RecordNotFound;
    hide Insert, TakeStale, TakeFailed, IsStale, IsFailed, KeyOf;
    assert w in s.workers ==> WritesTagged(s.tags, s.workers[w]);
  }

  lemma {:induction false} RunTagged(states: seq<State>, steps: seq<Step>, i: nat)
    requires Run(states, steps) && i < |states|
    ensures AllTagged(states[i])
  {
    hide Apply, Enabled, WritesTagged;
    if i > 0 {
      RunTagged(states, steps, i - 1);
      forall w | w in states[i].workers ensures WritesTagged(states[i].tags, states[i].workers[w]) {
        StepTagged(states[i - 1], steps[i - 1], w);
      }
    }
  }

  /** In every run, whoever completed a row has left its tag at exactly the commit the row names. */
  lemma CompletedIsTagged(states: seq<State>, steps: seq<Step>, j: nat, w: nat, i: nat, key: Key)
    requires Run(states, steps) && i < |states| && key in states[i].rows && CompletedIn(states, steps, j, w, i, key)
    ensures TagOf(states[j].workers[w]) in states[i].tags
    ensures Some(states[i].tags[TagOf(states[j].workers[w])]) == states[i].rows[key].commit
  {
    hide Apply, Enabled, TagOf, KeyOf;
    RunTagged(states, steps, j);
    assert WritesTagged(states[j].tags, states[j].workers[w]);
    TagsNeverMove(states, steps, j, i, TagOf(states[j].workers[w]));
  }

  /** The worker w committed, and its tag call took effect in step j. */
  ghost predicate Tagged(states: seq<State>, steps: seq<Step>, j: nat, w: nat, tag: string, commit: Commit) {
    && j < |steps| && j < |states| && steps[j].Tag? && steps[j].w == w && steps[j].fault != Before
    && w in states[j].workers && TagOf(states[j].workers[w]) == tag
    && states[j].workers[w].pc.Tagging? && states[j].workers[w].pc.commit == commit
  }

  lemma TaggingStep(s: State, step: Step, tag: string)
    requires Enabled(s, step) && tag in Apply(s, step).tags && tag !in s.tags
    ensures step.Tag? && step.fault != Before && step.w in s.workers && TagOf(s.workers[step.w]) == tag
    ensures s.workers[step.w].pc.Tagging? && s.workers[step.w].pc.commit == Apply(s, step).tags[tag]
  {
    hide CP.Enabled, CP.Apply, ExtractVersion, WellNamed, TagName, CallOf, Dir, Complete, Invalidate, RecordNotFound;
    hide Insert, TakeStale, TakeFailed, IsStale, IsFailed, KeyOf;
  }

  /** Every tag there is was left by a sync at the commit its own Commit call had returned. */
  lemma {:induction false} WhoTagged(states: seq<State>, steps: seq<Step>, i: nat, tag: string) returns (j: nat, w: nat)
    requires Run(states, steps) && i < |states| && tag in states[i].tags
    ensures j < i && Tagged(states, steps, j, w, tag, states[i].tags[tag])
  {
    hide Apply, Enabled, TagOf;
    if tag in states[i - 1].tags {
      j, w := WhoTagged(states, steps, i - 1, tag);
      StepKeepsTags(states[i - 1], steps[i - 1]);
    } else {
      TaggingStep(states[i - 1], steps[i - 1], tag);
      j, w := i - 1, steps[i - 1].w;
    }
  }

  // ----- What a worker leaves undone -----

  lemma StepKeepsStopped(s: State, step: Step, w: nat)
    requires Enabled(s, step) && w in s.workers && s.workers[w].pc == Stopped
    ensures w in Apply(s, step).workers && Apply(s, step).workers[w] == s.workers[w]
  {
    hide CP.Enabled, CP.Apply, ExtractVersion, WellNamed, TagName, CallOf, CreateRef, TagOf, Dir, Complete, Invalidate, RecordNotFound;
    hide Insert, TakeStale, TakeFailed, IsStale, IsFailed, KeyOf;
  }

  /** A worker that has died, or has sent its last write, does nothing any more, whatever has become of the write. */
  lemma {:induction false} StoppedForGood(states: seq<State>, steps: seq<Step>, i: nat, j: nat, w: nat)
    requires Run(states, steps) && i < j < |states|
    requires (steps[i].Die? || steps[i].Write?) && steps[i].w == w
    ensures w in states[j].workers && states[j].workers[w].pc == Stopped
    decreases j
  {
    if i + 1 < j {
      hide Apply, Enabled;
      StoppedForGood(states, steps, i, j - 1, w);
      StepKeepsStopped(states[j - 1], steps[j - 1], w);
    } else {
      assert Enabled(states[i], steps[i]) && states[i + 1] == Apply(states[i], steps[i]);
      hide CP.Enabled, CP.Apply, ExtractVersion, WellNamed, TagName, CallOf, CreateRef, TagOf, Dir, Complete;
    }
  }

  ghost predicate WritesOutcome(worker: Worker) {
    worker.pc.Writing? ==> worker.pc.status == Completed || worker.pc.status == Failed
  }

  lemma StepWritesOutcome(s: State, step: Step, w: nat)
    requires Enabled(s, step) && w in Apply(s, step).workers && (w in s.workers ==> WritesOutcome(s.workers[w]))
    ensures WritesOutcome(Apply(s, step).workers[w])
  {
    hide CP.Enabled, CP.Apply, ExtractVersion, WellNamed, TagName, CallOf, CreateRef, TagOf, Dir, Complete, Invalidate, RecordNotFound;
    hide Insert, TakeStale, TakeFailed, IsStale, IsFailed, KeyOf;
  }

  lemma {:induction false} RunWritesOutcome(states: seq<State>, steps: seq<Step>, i: nat)
    requires Run(states, steps) && i < |states|
    ensures forall w | w in states[i].workers :: WritesOutcome(states[i].workers[w])
  {
    hide Apply, Enabled, WritesOutcome;
    if i > 0 {
      RunWritesOutcome(states, steps, i - 1);
      forall w | w in states[i].workers ensures WritesOutcome(states[i].workers[w]) {
        StepWritesOutcome(states[i - 1], steps[i - 1], w);
      }
    }
  }

  /** In every run, an owner's last write, when it takes effect, leaves its row completed or failed: done, or open to the
      next sync at once, and never waiting for the timeout. */
  lemma WritesSettle(states: seq<State>, steps: seq<Step>, i: nat, now: int)
    requires Run(states, steps) && i < |steps| && steps[i].Write? && steps[i].fault != Before
    requires steps[i].w in states[i].workers && KeyOf(states[i].workers[steps[i].w]) in states[i].rows
    ensures var key := KeyOf(states[i].workers[steps[i].w]);
            && key in states[i + 1].rows
            && (|| states[i + 1].rows[key].status == Completed
                || (states[i + 1].rows[key].status == Failed && Claimable(states[i + 1].rows, key, now)))
  {
    RunWritesOutcome(states, steps, i);
    assert Enabled(states[i], steps[i]) && states[i + 1] == Apply(states[i], steps[i]);
    assert WritesOutcome(states[i].workers[steps[i].w]);
    hide CP.Enabled, CP.Apply, ExtractVersion, WellNamed, TagName, CallOf, CreateRef, TagOf, Dir;
  }
}
