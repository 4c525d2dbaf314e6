/** The snapshot row as a distributed lock: how often it can be claimed and who may hold it. */
module GitClaims {
  import opened Manifest
  import opened GitObjects
  import opened Snapshots
  import opened GitSync
  import CP = CommitProtocol

  /** The step makes its worker the owner of key, with this time stamp. */
  ghost predicate Claims(s: State, step: Step, key: Key, stamp: int) {
    && Enabled(s, step)
    && (step.InsertRow? || step.Restale? || step.Refail?)
    && key == KeyOf(s.workers[step.w])
    && step.stamp == stamp
    && step.fault == Fine
    && (step.InsertRow? ==> key !in s.rows)
    && (step.Restale? ==> IsStale(s.rows, key, step.cutoff))
    && (step.Refail? ==> IsFailed(s.rows, key))
  }

  /** Claiming is what makes a worker an owner; nothing else does. */
  lemma ClaimsMakeOwners(s: State, step: Step, w: nat)
    requires Enabled(s, step) && w in s.workers && !IsOwner(s.workers[w].pc)
    ensures IsOwner(Apply(s, step).workers[w].pc) <==>
              exists stamp :: Claims(s, step, KeyOf(s.workers[w]), stamp) && step.w == w
  {
    hide CP.Enabled, CP.Apply, ExtractVersion, WellNamed, TagName, CallOf, FirstRow, CreateRef, TagOf;
    hide Insert, TakeStale, TakeFailed, Complete, Invalidate, RecordNotFound;
    if IsOwner(Apply(s, step).workers[w].pc) {
      assert Claims(s, step, KeyOf(s.workers[w]), step.stamp);
    }
  }

  /** The row's time stamp never runs ahead of the clock. */
  ghost predicate StampsPast(s: State) {
    forall key | key in s.rows :: s.rows[key].triggeredAt <= s.now
  }

  lemma StampsStayPast(s: State, step: Step)
    requires Enabled(s, step) && StampsPast(s)
    ensures StampsPast(Apply(s, step))
  {
    hide CP.Enabled, CP.Apply, ExtractVersion, WellNamed, TagName, CallOf, CreateRef, TagOf, Dir;
  }

  /** As long as the row does not pass through failed, its time stamp only grows. */
  lemma StampStep(s: State, step: Step, key: Key)
    requires Enabled(s, step) && StampsPast(s) && key in s.rows
    ensures key in Apply(s, step).rows
    ensures s.rows[key].status != Failed ==> Apply(s, step).rows[key].triggeredAt >= s.rows[key].triggeredAt
  {
    hide CP.Enabled, CP.Apply, ExtractVersion, WellNamed, TagName, CallOf, CreateRef, TagOf, Dir;
  }

  lemma {:induction false} RunStampsPast(states: seq<State>, steps: seq<Step>, i: nat)
    requires Run(states, steps) && i < |states|
    ensures StampsPast(states[i])
  {
    if i > 0 {
      RunStampsPast(states, steps, i - 1);
      StampsStayPast(states[i - 1], steps[i - 1]);
    }
  }

  lemma {:induction false} StampsGrow(states: seq<State>, steps: seq<Step>, i: nat, j: nat, key: Key)
    requires Run(states, steps) && i <= j < |states| && key in states[i].rows
    requires forall k | i <= k < j :: key in states[k].rows ==> states[k].rows[key].status != Failed
    ensures key in states[j].rows && states[i].rows[key].triggeredAt <= states[j].rows[key].triggeredAt
    decreases j
  {
    if i < j {
      StampsGrow(states, steps, i, j - 1, key);
      RunStampsPast(states, steps, j - 1);
      StampStep(states[j - 1], steps[j - 1], key);
    }
  }

  /** Two workers that both claim a row do so more than the timeout apart, unless the row passed through failed. */
  lemma ClaimsAreFarApart(states: seq<State>, steps: seq<Step>, i: nat, j: nat, key: Key, first: int, second: int)
    requires Run(states, steps) && i < j < |steps|
    requires Claims(states[i], steps[i], key, first) && Claims(states[j], steps[j], key, second)
    ensures second - first > PENDING_TIMEOUT
            || exists k :: i < k <= j && key in states[k].rows && states[k].rows[key].status == Failed
  {
    if forall k | i < k <= j :: key in states[k].rows ==> states[k].rows[key].status != Failed {
      assert key in states[i + 1].rows && states[i + 1].rows[key].triggeredAt == first;
      StampsGrow(states, steps, i + 1, j, key);
      assert steps[j].Restale?;
    }
  }

  // ----- At most one owner -----

  /** An owner whose claim is younger than the timeout. */
  ghost predicate Live(s: State, w: nat) {
    w in s.workers && IsOwner(s.workers[w].pc) && s.now - s.workers[w].pc.stamp <= PENDING_TIMEOUT
  }

  /** An owner that outlives the timeout never writes back. */
  ghost predicate Punctual(s: State, step: Step) {
    step.Write? ==> step.fault == Before || Live(s, step.w)
  }

  /** The row of an owner is the one it claimed, or has been marked not found, which nobody can claim. */
  ghost predicate HoldsRow(s: State, w: nat)
    requires w in s.workers && IsOwner(s.workers[w].pc)
  {
    var key := KeyOf(s.workers[w]);
    && key in s.rows
    && (s.rows[key].status == NotFound || (s.rows[key].status == Pending && s.rows[key].triggeredAt == s.workers[w].pc.stamp))
  }

  ghost predicate OwnerInv(s: State) {
    && StampsPast(s)
    && (forall w | Live(s, w) :: HoldsRow(s, w))
    && (forall v, w | Live(s, v) && Live(s, w) && KeyOf(s.workers[v]) == KeyOf(s.workers[w]) :: v == w)
  }

  predicate IsClaimStep(step: Step) {
    step.InsertRow? || step.Restale? || step.Refail?
  }

  lemma ClaimerLive(s: State, step: Step, w: nat)
    requires Enabled(s, step) && IsClaimStep(step) && step.w == w && Live(Apply(s, step), w)
    ensures Claims(s, step, KeyOf(s.workers[w]), step.stamp)
    ensures KeyOf(Apply(s, step).workers[w]) == KeyOf(s.workers[w])
    ensures !Live(s, w)
  {
    hide CP.Enabled, CP.Apply, ExtractVersion, WellNamed, TagName, CallOf, FirstRow, CreateRef, TagOf;
    hide Insert, TakeStale, TakeFailed, Complete, Invalidate, RecordNotFound;
  }

  lemma OtherLive(s: State, step: Step, w: nat)
    requires Enabled(s, step) && !(IsClaimStep(step) && step.w == w) && Live(Apply(s, step), w)
    ensures Live(s, w)
    ensures KeyOf(Apply(s, step).workers[w]) == KeyOf(s.workers[w])
    ensures Apply(s, step).workers[w].pc.stamp == s.workers[w].pc.stamp
  {
    hide CP.Enabled, CP.Apply, ExtractVersion, WellNamed, TagName, CallOf, FirstRow, CreateRef, TagOf;
    hide Insert, TakeStale, TakeFailed, Complete, Invalidate, RecordNotFound;
  }

  /** Who is live after a step was live before it, or has just claimed its row. */
  lemma LiveBefore(s: State, step: Step, w: nat)
    requires Enabled(s, step) && Live(Apply(s, step), w)
    ensures Live(s, w) || (IsClaimStep(step) && step.w == w && Claims(s, step, KeyOf(s.workers[w]), step.stamp))
    ensures w in s.workers && KeyOf(Apply(s, step).workers[w]) == KeyOf(s.workers[w])
    ensures Live(s, w) ==> Apply(s, step).workers[w].pc.stamp == s.workers[w].pc.stamp
  {
    hide Apply;
    if IsClaimStep(step) && step.w == w {
      ClaimerLive(s, step, w);
    } else {
      OtherLive(s, step, w);
    }
  }

  /** A claim succeeds only on a row that no live owner holds. */
  lemma ClaimNeedsNoLiveOwner(s: State, step: Step, key: Key, v: nat)
    requires OwnerInv(s) && IsClaimStep(step) && Claims(s, step, key, step.stamp)
    requires Live(s, v)
    ensures KeyOf(s.workers[v]) != key
  {
    hide CP.Enabled, CP.Apply, ExtractVersion, WellNamed, TagName, CallOf;
    assert HoldsRow(s, v);
  }

  lemma HoldsStep(s: State, step: Step, w: nat)
    requires OwnerInv(s) && Enabled(s, step) && Punctual(s, step) && Live(Apply(s, step), w)
    ensures HoldsRow(Apply(s, step), w)
  {
    hide CP.Enabled, CP.Apply, ExtractVersion, WellNamed, TagName, CallOf, CreateRef, TagOf, Dir, StampsPast;
    LiveBefore(s, step, w);
    if Live(s, w) {
      assert HoldsRow(s, w);
      if step.Write? && step.fault != Before && step.w != w {
        assert Live(s, step.w) && KeyOf(s.workers[step.w]) != KeyOf(s.workers[w]);
      }
    }
  }

  lemma OwnerStep(s: State, step: Step)
    requires OwnerInv(s) && Enabled(s, step) && Punctual(s, step)
    ensures OwnerInv(Apply(s, step))
  {
    var t := Apply(s, step);
    StampsStayPast(s, step);
    forall w | Live(t, w) ensures HoldsRow(t, w) {
      HoldsStep(s, step, w);
    }
    forall v, w | Live(t, v) && Live(t, w) && KeyOf(t.workers[v]) == KeyOf(t.workers[w]) ensures v == w {
      LiveBefore(s, step, v);
      LiveBefore(s, step, w);
      if !Live(s, v) && Live(s, w) {
        ClaimNeedsNoLiveOwner(s, step, KeyOf(s.workers[v]), w);
      } else if Live(s, v) && !Live(s, w) {
        ClaimNeedsNoLiveOwner(s, step, KeyOf(s.workers[w]), v);
      }
    }
  }

  /** Under one clock, and with late owners silent, no row ever has two live owners. */
  lemma {:induction false} AtMostOneLiveOwner(states: seq<State>, steps: seq<Step>, i: nat)
    requires Run(states, steps) && i < |states|
    requires forall k | 0 <= k < |steps| :: Punctual(states[k], steps[k])
    ensures OwnerInv(states[i])
    ensures forall v, w | Live(states[i], v) && Live(states[i], w) && KeyOf(states[i].workers[v]) == KeyOf(states[i].workers[w]) :: v == w
  {
    if i > 0 {
      AtMostOneLiveOwner(states, steps, i - 1);
      OwnerStep(states[i - 1], steps[i - 1]);
    }
  }

  // ----- A claim that nobody disturbs -----

  /** Taking these steps one after the other leads from s to t. */
  ghost predicate Leads(s: State, steps: seq<Step>, t: State)
    decreases |steps|
  {
    if steps == [] then s == t else Enabled(s, steps[0]) && Leads(Apply(s, steps[0]), steps[1..], t)
  }

  lemma {:induction false} LeadsOn(s: State, steps: seq<Step>, t: State, step: Step)
    requires Leads(s, steps, t) && Enabled(t, step)
    ensures Leads(s, steps + [step], Apply(t, step))
    decreases |steps|
  {
    hide Enabled, Apply;
    if steps == [] {
      assert [step][1..] == [];
      assert steps + [step] == [step];
      assert Leads(Apply(t, step), [], Apply(t, step));
    } else {
      LeadsOn(Apply(s, steps[0]), steps[1..], t, step);
      assert (steps + [step])[1..] == steps[1..] + [step];
    }
  }

  /** Undisturbed, the insert, the look and the conditional update of a worker do what the claim in one piece does: it
      owns the row exactly when the row could be claimed, and otherwise stops. */
  lemma ClaimIsSteps(s: State, w: nat) returns (steps: seq<Step>, t: State)
    requires w in s.workers && s.workers[w].pc == Claiming
    ensures Leads(s, steps, t)
    ensures var worker := s.workers[w];
            && t.rows == AfterClaim(s.rows, KeyOf(worker), Dir(worker.req), TagOf(worker), s.now)
            && w in t.workers && t == s.(rows := t.rows, workers := s.workers[w := worker.(pc := t.workers[w].pc)])
            && t.workers[w].pc == if Claimable(s.rows, KeyOf(worker), s.now) then Checking(s.now) else Stopped
  {
    var worker := s.workers[w];
    var key := KeyOf(worker);
    hide CP.Enabled, CP.Apply, ExtractVersion, WellNamed, TagName, CallOf, CreateRef, TagOf, Dir;
    assert Leads(s, [], s);
    LeadsOn(s, [], s, InsertRow(w, s.now, Fine));
    steps, t := [] + [InsertRow(w, s.now, Fine)], Apply(s, InsertRow(w, s.now, Fine));
    if key in s.rows {
      LeadsOn(s, steps, t, Look(w));
      steps, t := steps + [Look(w)], Apply(t, Look(w));
      if t.workers[w].pc == Restaling {
        LeadsOn(s, steps, t, Restale(w, s.now, s.now, Fine));
        steps, t := steps + [Restale(w, s.now, s.now, Fine)], Apply(t, Restale(w, s.now, s.now, Fine));
      } else if t.workers[w].pc == Refailing {
        LeadsOn(s, steps, t, Refail(w, s.now, Fine));
        steps, t := steps + [Refail(w, s.now, Fine)], Apply(t, Refail(w, s.now, Fine));
      }
    }
  }
}
