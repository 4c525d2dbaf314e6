/** The destination cache under any interleaving of its calls, with the Destination Service changing on its own too. */
module DestinationCache {
  import opened Strings

  /** began: when the fetch that brought the value had been sent. */
  datatype Cached = Cached(dest: string, fetchedAt: int, began: int)

  datatype Call =
    | Fetching(name: string, began: int)                             // request on its way
    | Fetched(name: string, began: int, answer: Option<string>)      // answered, not yet back
    | Writing(name: string, dest: Option<string>)                    // an upsert, or a delete
    | Written(name: string)

  datatype State = State(now: int, remote: map<string, string>, cache: map<string, Cached>, calls: map<nat, Call>)

  datatype Step =
    | Tick(later: nat)
    | RemoteChange(name: string, dest: Option<string>)
    | BeginGet(c: nat, name: string)
    | Serve(c: nat)
    | EndGet(c: nat)
    | FailGet(c: nat)
    | BeginWrite(c: nat, name: string, dest: Option<string>)
    | Write(c: nat)
    | FailWrite(c: nat)
    | EndWrite(c: nat)
    | Invalidate(name: string)
    | InvalidateAll

  function Set(remote: map<string, string>, name: string, dest: Option<string>): map<string, string> {
    if dest.Some? then remote[name := dest.value] else remote - {name}
  }

  function Held(remote: map<string, string>, name: string): Option<string> {
    if name in remote then Some(remote[name]) else None
  }

  /** A read is answered from the cache only while the entry is younger than ttl, and never when there is no ttl. */
  predicate Hit(ttl: nat, s: State, name: string) {
    ttl > 0 && name in s.cache && s.now - s.cache[name].fetchedAt < ttl
  }

  function Evict(ttl: nat, cache: map<string, Cached>, name: string): map<string, Cached> {
    if ttl == 0 then cache else cache - {name}
  }

  ghost predicate StepsTo(ttl: nat, s: State, step: Step, t: State) {
    match step
    case Tick(later) => t == s.(now := s.now + later)
    case RemoteChange(name, dest) => t == s.(remote := Set(s.remote, name, dest))
    case BeginGet(c, name) =>
      c !in s.calls && t == if Hit(ttl, s, name) then s else s.(calls := s.calls[c := Fetching(name, s.now)])
    case Serve(c) =>
      && c in s.calls && s.calls[c].Fetching?
      && t == s.(calls := s.calls[c := Fetched(s.calls[c].name, s.calls[c].began, Held(s.remote, s.calls[c].name))])
    case EndGet(c) =>
      && c in s.calls && s.calls[c].Fetched?
      && var call := s.calls[c];
         t == s.(calls := s.calls - {c},
                 cache := if ttl > 0 && call.answer.Some? then s.cache[call.name := Cached(call.answer.value, s.now, call.began)]
                          else s.cache)
    case FailGet(c) => c in s.calls && (s.calls[c].Fetching? || s.calls[c].Fetched?) && t == s.(calls := s.calls - {c})
    case BeginWrite(c, name, dest) => c !in s.calls && t == s.(calls := s.calls[c := Writing(name, dest)])
    case Write(c) =>
      && c in s.calls && s.calls[c].Writing?
      && t == s.(remote := Set(s.remote, s.calls[c].name, s.calls[c].dest), calls := s.calls[c := Written(s.calls[c].name)])
    case FailWrite(c) =>                    // a failed delete evicts, a failed upsert does not
      && c in s.calls && s.calls[c].Writing?
      && t == s.(calls := s.calls - {c},
                 cache := if s.calls[c].dest.None? then Evict(ttl, s.cache, s.calls[c].name) else s.cache)
    case EndWrite(c) =>
      && c in s.calls && s.calls[c].Written?
      && t == s.(calls := s.calls - {c}, cache := Evict(ttl, s.cache, s.calls[c].name))
    case Invalidate(name) => t == s.(cache := Evict(ttl, s.cache, name))
    case InvalidateAll => t == s.(cache := if ttl == 0 then s.cache else map[])
  }

  ghost predicate Steps(ttl: nat, states: seq<State>, steps: seq<Step>) {
    |states| == |steps| + 1 && forall i | 0 <= i < |steps| :: StepsTo(ttl, states[i], steps[i], states[i + 1])
  }

  ghost predicate Run(ttl: nat, states: seq<State>, steps: seq<Step>) {
    Steps(ttl, states, steps) && states[0].cache == map[] && states[0].calls == map[]
  }

  /** The value a call returns in this step, with its name. */
  function Returned(ttl: nat, s: State, step: Step): Option<(string, string)> {
    if step.BeginGet? && Hit(ttl, s, step.name) then Some((step.name, s.cache[step.name].dest))
    else if step.EndGet? && step.c in s.calls && s.calls[step.c].Fetched? && s.calls[step.c].answer.Some?
    then Some((s.calls[step.c].name, s.calls[step.c].answer.value))
    else None
  }

  /** In one of these states, not before this instant, the service held this value. */
  ghost predicate HeldSince(states: seq<State>, i: int, name: string, dest: string, since: int) {
    exists j :: 0 <= j <= i < |states| && Held(states[j].remote, name) == Some(dest) && since <= states[j].now
  }

  lemma HeldLonger(states: seq<State>, i: nat, name: string, dest: string, since: int)
    requires HeldSince(states, i, name, dest, since) && i + 1 < |states|
    ensures HeldSince(states, i + 1, name, dest, since)
  {
    var j :| 0 <= j <= i && Held(states[j].remote, name) == Some(dest) && since <= states[j].now;
  }

  /** Everything cached, and everything on its way back, was held by the service after its fetch had begun. */
  ghost predicate CacheHeld(states: seq<State>, i: nat)
    requires i < |states|
  {
    forall name | name in states[i].cache :: HeldSince(states, i, name, states[i].cache[name].dest, states[i].cache[name].began)
  }

  ghost predicate FetchedHeld(states: seq<State>, i: nat)
    requires i < |states|
  {
    forall c | c in states[i].calls && states[i].calls[c].Fetched? && states[i].calls[c].answer.Some? ::
      HeldSince(states, i, states[i].calls[c].name, states[i].calls[c].answer.value, states[i].calls[c].began)
  }

  ghost predicate BegunBefore(s: State) {
    forall c | c in s.calls && s.calls[c].Fetching? :: s.calls[c].began <= s.now
  }

  ghost predicate Inv(states: seq<State>, i: nat)
    requires i < |states|
  {
    CacheHeld(states, i) && FetchedHeld(states, i) && BegunBefore(states[i])
  }

  lemma CacheStaysHeld(ttl: nat, states: seq<State>, steps: seq<Step>, i: nat)
    requires i < |steps| && |states| == |steps| + 1 && StepsTo(ttl, states[i], steps[i], states[i + 1])
    requires CacheHeld(states, i) && FetchedHeld(states, i)
    ensures CacheHeld(states, i + 1)
  {
    hide HeldSince;
    var t := states[i + 1];
    forall name | name in t.cache ensures HeldSince(states, i + 1, name, t.cache[name].dest, t.cache[name].began) {
      HeldLonger(states, i, name, t.cache[name].dest, t.cache[name].began);
    }
  }

  lemma FetchedStaysHeld(ttl: nat, states: seq<State>, steps: seq<Step>, i: nat)
    requires i < |steps| && |states| == |steps| + 1 && StepsTo(ttl, states[i], steps[i], states[i + 1])
    requires FetchedHeld(states, i) && BegunBefore(states[i])
    ensures FetchedHeld(states, i + 1)
  {
    hide HeldSince, CacheHeld;
    var t := states[i + 1];
    forall c | c in t.calls && t.calls[c].Fetched? && t.calls[c].answer.Some?
      ensures HeldSince(states, i + 1, t.calls[c].name, t.calls[c].answer.value, t.calls[c].began) {
      if steps[i] == Serve(c) {
        ServedNow(states, i, t.calls[c].name, t.calls[c].answer.value, t.calls[c].began);
      } else {
        HeldLonger(states, i, t.calls[c].name, t.calls[c].answer.value, t.calls[c].began);
      }
    }
  }

  lemma StepKeeps(ttl: nat, states: seq<State>, steps: seq<Step>, i: nat)
    requires Steps(ttl, states, steps) && i < |steps| && Inv(states, i)
    ensures Inv(states, i + 1)
  {
    assert StepsTo(ttl, states[i], steps[i], states[i + 1]);
    hide CacheHeld, FetchedHeld;
    CacheStaysHeld(ttl, states, steps, i);
    FetchedStaysHeld(ttl, states, steps, i);
  }

  lemma ServedNow(states: seq<State>, i: nat, name: string, dest: string, since: int)
    requires i + 1 < |states| && Held(states[i].remote, name) == Some(dest) && since <= states[i].now
    ensures HeldSince(states, i + 1, name, dest, since)
  {
  }

  lemma {:induction false} RunKeeps(ttl: nat, states: seq<State>, steps: seq<Step>, i: nat)
    requires Run(ttl, states, steps) && i < |states|
    ensures Inv(states, i)
  {
    if i > 0 {
      RunKeeps(ttl, states, steps, i - 1);
      StepKeeps(ttl, states, steps, i - 1);
    }
  }

  /** Every value a read returns was held by the service at an instant no further back than the ttl and the time the
      fetch that brought it took; a read that fetched returns a value held since it set out. */
  lemma ReadsAreFresh(ttl: nat, states: seq<State>, steps: seq<Step>, i: nat, name: string, dest: string)
    requires Run(ttl, states, steps) && i < |steps| && Returned(ttl, states[i], steps[i]) == Some((name, dest))
    ensures steps[i].BeginGet? ==>
              var entry := states[i].cache[name];
              HeldSince(states, i, name, dest, states[i].now - ttl - (entry.fetchedAt - entry.began) + 1)
    ensures steps[i].EndGet? ==> HeldSince(states, i, name, dest, states[i].calls[steps[i].c].began)
  {
    RunKeeps(ttl, states, steps, i);
    if steps[i].BeginGet? {
      var entry := states[i].cache[name];
      assert HeldSince(states, i, name, dest, entry.began);
      var j :| 0 <= j <= i && Held(states[j].remote, name) == Some(dest) && entry.began <= states[j].now;
    }
  }

  // ----- Reading what was written -----

  /** A fetch of this name has been answered with something the service no longer holds, and is not back yet. */
  ghost predicate Outdated(s: State, name: string) {
    exists c :: c in s.calls && s.calls[c].Fetched? && s.calls[c].name == name
                && s.calls[c].answer.Some? && s.calls[c].answer != Held(s.remote, name)
  }

  /** From s on, whatever the cache answers for this name, the service has held since s. */
  ghost predicate NeverStale(ttl: nat, s: State, name: string) {
    forall states: seq<State>, steps: seq<Step>, i |
      Steps(ttl, states, steps) && states[0] == s && 0 <= i < |steps| && steps[i].BeginGet? && steps[i].name == name
      && Hit(ttl, states[i], name) :: SinceStart(states, i, name, states[i].cache[name].dest)
  }

  ghost predicate SinceStart(states: seq<State>, i: int, name: string, dest: string) {
    exists j :: 0 <= j <= i < |states| && Held(states[j].remote, name) == Some(dest)
  }

  ghost predicate New(states: seq<State>, i: nat, name: string)
    requires i < |states|
  {
    var s := states[i];
    && (name in s.cache ==> SinceStart(states, i, name, s.cache[name].dest))
    && (forall c | c in s.calls && s.calls[c].Fetched? && s.calls[c].name == name && s.calls[c].answer.Some? ::
          SinceStart(states, i, name, s.calls[c].answer.value))
  }

  lemma SinceStill(states: seq<State>, i: nat, name: string, dest: string)
    requires SinceStart(states, i, name, dest) && i + 1 < |states|
    ensures SinceStart(states, i + 1, name, dest)
  {
    var j :| 0 <= j <= i && Held(states[j].remote, name) == Some(dest);
  }

  lemma {:induction false} StaysNew(ttl: nat, states: seq<State>, steps: seq<Step>, i: nat, name: string)
    requires Steps(ttl, states, steps) && i < |states| && New(states, 0, name)
    ensures New(states, i, name)
  {
    if i > 0 {
      StaysNew(ttl, states, steps, i - 1, name);
      var s, t := states[i - 1], states[i];
      assert StepsTo(ttl, s, steps[i - 1], states[i - 1 + 1]);
      if name in t.cache {
        SinceStill(states, i - 1, name, t.cache[name].dest);
      }
      forall c | c in t.calls && t.calls[c].Fetched? && t.calls[c].name == name && t.calls[c].answer.Some?
        ensures SinceStart(states, i, name, t.calls[c].answer.value) {
        if steps[i - 1] == Serve(c) {
          assert Held(states[i - 1].remote, name) == t.calls[c].answer;
        } else {
          SinceStill(states, i - 1, name, t.calls[c].answer.value);
        }
      }
    }
  }

  lemma NewFromStart(s: State, states: seq<State>, name: string)
    requires |states| > 0 && states[0] == s && name !in s.cache && !Outdated(s, name)
    ensures New(states, 0, name)
  {
    forall c | c in s.calls && s.calls[c].Fetched? && s.calls[c].name == name && s.calls[c].answer.Some?
      ensures SinceStart(states, 0, name, s.calls[c].answer.value) {
      assert s.calls[c].answer == Held(s.remote, name);
    }
  }

  lemma OutdatedSurfaces(ttl: nat, s: State, name: string)
    requires ttl > 0 && Outdated(s, name)
    ensures !NeverStale(ttl, s, name)
  {
    var c :| c in s.calls && s.calls[c].Fetched? && s.calls[c].name == name
             && s.calls[c].answer.Some? && s.calls[c].answer != Held(s.remote, name);
    var call := s.calls[c];
    var t := s.(calls := s.calls - {c}, cache := s.cache[name := Cached(call.answer.value, s.now, call.began)]);
    var states, steps := [s, t, t], [EndGet(c), BeginGet(c, name)];
    assert Hit(ttl, t, name);
    assert StepsTo(ttl, s, steps[0], t) && StepsTo(ttl, t, steps[1], t);
    assert Steps(ttl, states, steps);
    assert !SinceStart(states, 1, name, states[1].cache[name].dest);
  }

  /** Once a name has been evicted, no later read is answered from the cache with a value the service has given up
      before, exactly when no fetch answered with such a value is still on its way. */
  lemma NeverStaleIff(ttl: nat, s: State, name: string)
    requires ttl > 0 && name !in s.cache
    ensures NeverStale(ttl, s, name) <==> !Outdated(s, name)
  {
    if Outdated(s, name) {
      OutdatedSurfaces(ttl, s, name);
    } else {
      forall states: seq<State>, steps: seq<Step>, i |
        Steps(ttl, states, steps) && states[0] == s && 0 <= i < |steps| && steps[i].BeginGet? && steps[i].name == name
        && Hit(ttl, states[i], name) ensures SinceStart(states, i, name, states[i].cache[name].dest) {
        NewFromStart(s, states, name);
        StaysNew(ttl, states, steps, i, name);
      }
    }
  }

  /** A call that is fetching this name, answered or not. */
  ghost predicate InFlight(s: State, name: string) {
    exists c :: c in s.calls && (s.calls[c].Fetching? || s.calls[c].Fetched?) && s.calls[c].name == name
  }

  lemma NoneOutdated(s: State, name: string)
    requires !InFlight(s, name)
    ensures !Outdated(s, name)
  {
    if c :| c in s.calls && s.calls[c].Fetched? && s.calls[c].name == name
            && s.calls[c].answer.Some? && s.calls[c].answer != Held(s.remote, name) {
      assert InFlight(s, name);
    }
  }

  /** An upsert has returned while no fetch of its name was in flight: as long as the service keeps the value, every
      read returns it. */
  lemma ReadsWhatWasWritten(ttl: nat, states: seq<State>, steps: seq<Step>, c: nat, name: string, dest: string, k: nat, got: string)
    requires ttl > 0 && Steps(ttl, states, steps) && 1 <= k < |steps|
    requires steps[0] == EndWrite(c) && c in states[0].calls && states[0].calls[c] == Written(name)
    requires !InFlight(states[1], name)
    requires forall j | 1 <= j <= k :: Held(states[j].remote, name) == Some(dest)
    requires Returned(ttl, states[k], steps[k]) == Some((name, got))
    ensures got == dest
  {
    var later, thereafter := states[1..], steps[1..];
    assert StepsTo(ttl, states[0], steps[0], states[0 + 1]);
    assert Steps(ttl, later, thereafter) by {
      forall i | 0 <= i < |thereafter| ensures StepsTo(ttl, later[i], thereafter[i], later[i + 1]) {
        assert StepsTo(ttl, states[i + 1], steps[i + 1], states[i + 1 + 1]);
      }
    }
    NoneOutdated(states[1], name);
    NewFromStart(states[1], later, name);
    StaysNew(ttl, later, thereafter, k - 1, name);
    assert later[k - 1] == states[k];
    assert SinceStart(later, k - 1, name, got);
    var j :| 0 <= j <= k - 1 && Held(later[j].remote, name) == Some(got);
    assert later[j] == states[j + 1];
  }
}
