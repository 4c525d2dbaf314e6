/** The pollers that follow delivery requests, and the table that is to keep them to one each. */
module SyncTracker {
  import opened Fresh

  /** running: the requests the tracker believes are followed. pollers: the goroutines alive, with their requests. */
  datatype State = State(running: set<nat>, pollers: map<nat, nat>)

  datatype Step =
    | Start(dr: nat, p: nat)      // TryStart and the goroutine it admits
    | Finish(p: nat)              // a poller's last act
    | StopAll

  ghost predicate StepsTo(s: State, step: Step, t: State) {
    match step
    case Start(dr, p) =>
      p !in s.pollers && t == if dr in s.running then s else State(s.running + {dr}, s.pollers[p := dr])
    case Finish(p) => p in s.pollers && t == State(s.running - {s.pollers[p]}, s.pollers - {p})
    case StopAll => t == s.(running := {})
  }

  /** A stretch without a shutdown. */
  ghost predicate Steps(states: seq<State>, steps: seq<Step>) {
    && |states| == |steps| + 1
    && (forall i | 0 <= i < |steps| :: StepsTo(states[i], steps[i], states[i + 1]))
    && (forall i | 0 <= i < |steps| :: !steps[i].StopAll?)
  }

  ghost predicate OneEach(s: State) {
    forall p, q | p in s.pollers && q in s.pollers && s.pollers[p] == s.pollers[q] :: p == q
  }

  /** Every poller is on the table. */
  ghost predicate AllListed(s: State) {
    forall p | p in s.pollers :: s.pollers[p] in s.running
  }

  /** No request ever gets a second poller from here on. */
  ghost predicate StaysOneEach(s: State) {
    forall states: seq<State>, steps: seq<Step>, i | Steps(states, steps) && states[0] == s && 0 <= i < |states| :: OneEach(states[i])
  }

  lemma {:induction false} ListedStays(states: seq<State>, steps: seq<Step>, i: nat)
    requires Steps(states, steps) && i < |states| && OneEach(states[0]) && AllListed(states[0])
    ensures OneEach(states[i]) && AllListed(states[i])
  {
    if i > 0 {
      ListedStays(states, steps, i - 1);
      assert StepsTo(states[i - 1], steps[i - 1], states[i - 1 + 1]);
    }
  }

  /** While nobody shuts the tracker down, each request has one poller at most exactly when every poller alive is on
      the table; a shutdown clears the table at once but the pollers only when they notice. */
  lemma OnePollerEachIff(s: State)
    requires OneEach(s)
    ensures StaysOneEach(s) <==> AllListed(s)
  {
    if AllListed(s) {
      forall states: seq<State>, steps: seq<Step>, i | Steps(states, steps) && states[0] == s && 0 <= i < |states|
        ensures OneEach(states[i]) {
        ListedStays(states, steps, i);
      }
    } else {
      var p :| p in s.pollers && s.pollers[p] !in s.running;
      var q := Unused(s.pollers.Keys);
      var t := State(s.running + {s.pollers[p]}, s.pollers[q := s.pollers[p]]);
      var states, steps := [s, t], [Start(s.pollers[p], q)];
      assert StepsTo(s, steps[0], t);
      assert Steps(states, steps);
      assert p in t.pollers && q in t.pollers && t.pollers[p] == t.pollers[q] && p != q;
      assert !OneEach(states[1]);
    }
  }

  /** So after a shutdown a restart is safe only once every poller has gone. */
  lemma RestartSafeIff(s: State, t: State)
    requires OneEach(s) && StepsTo(s, StopAll, t)
    ensures StaysOneEach(t) <==> s.pollers == map[]
  {
    OnePollerEachIff(t);
    if s.pollers != map[] {
      var p :| p in s.pollers;
      assert t.pollers[p] !in t.running;
    }
  }
}
