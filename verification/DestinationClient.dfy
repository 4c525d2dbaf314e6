/** The destination client's calls, each run from beginning to end against a service that may refuse any request, and
    the stretch of a concurrent run each of them is. */
module DestinationClient {
  import opened Strings
  import DC = DestinationCache

  datatype Lookup = Found(dest: string) | NotFound | Refused

  /** What the client remembers, and since when. */
  type Cache = map<string, (string, int)>

  predicate Young(ttl: nat, cache: Cache, name: string, now: int) {
    ttl > 0 && name in cache && now - cache[name].1 < ttl
  }

  /** What a read is answered. */
  function Answer(ttl: nat, cache: Cache, service: map<string, string>, name: string, now: int, up: bool): Lookup {
    if Young(ttl, cache, name, now) then Found(cache[name].0)
    else if !up then Refused
    else if name in service then Found(service[name]) else NotFound
  }

  /** What it leaves in the cache: an answer from the service, but not its absence. */
  function Remembered(ttl: nat, cache: Cache, service: map<string, string>, name: string, now: int, up: bool): Cache {
    if ttl > 0 && !Young(ttl, cache, name, now) && up && name in service then cache[name := (service[name], now)] else cache
  }

  function Forgotten(ttl: nat, cache: Cache, name: string): Cache {
    if ttl == 0 then cache else cache - {name}
  }

  /** An upsert gets through its look-up and is accepted. */
  predicate Upserts(ttl: nat, cache: Cache, name: string, now: int, up: bool, accepted: bool) {
    accepted && (up || Young(ttl, cache, name, now))
  }

  class DestinationServiceClient {
    const ttl: nat
    var cache: Cache
    /** What the Destination Service holds. */
    var service: map<string, string>

    constructor (ttl: nat, service: map<string, string>)
      ensures this.ttl == ttl && this.service == service && cache == map[]
    {
      this.ttl, this.service, cache := ttl, service, map[];
    }

    method GetDestination(name: string, now: int, up: bool) returns (r: Lookup)
      modifies this`cache
      ensures r == Answer(ttl, old(cache), service, name, now, up)
      ensures cache == Remembered(ttl, old(cache), service, name, now, up)
    {
      if ttl > 0 {
        if name in cache && now - cache[name].1 < ttl { return Found(cache[name].0); }
      }
      if !up { return Refused; }
      if name !in service { return NotFound; }
      r := Found(service[name]);
      if ttl > 0 {
        cache := cache[name := (r.dest, now)];
      }
    }

    method Invalidate(name: string)
      modifies this`cache
      ensures cache == Forgotten(ttl, old(cache), name)
      ensures forall now :: !Young(ttl, cache, name, now)
    {
      if ttl == 0 { return; }
      cache := cache - {name};
    }

    /** From then on every read asks the service. */
    method InvalidateAll()
      modifies this`cache
      ensures forall name, now :: !Young(ttl, cache, name, now)
      ensures ttl == 0 ==> cache == old(cache)
    {
      if ttl == 0 { return; }
      cache := map[];
    }

    /** Once it succeeds the old value is forgotten; other names keep their entries. */
    method UpsertDestination(name: string, dest: string, now: int, up: bool, accepted: bool) returns (ok: bool)
      modifies this`cache, this`service
      ensures ok <==> Upserts(ttl, old(cache), name, now, up, accepted)
      ensures service == if ok then old(service)[name := dest] else old(service)
      ensures var looked := Remembered(ttl, old(cache), old(service), name, now, up);
              cache == if ok then Forgotten(ttl, looked, name) else looked
      ensures forall other | other != name :: (other in cache <==> other in old(cache)) && (other in cache ==> cache[other] == old(cache)[other])
    {
      var existing := GetDestination(name, now, up);
      if existing == Refused { return false; }
      if !accepted { return false; }
      service := service[name := dest];
      Invalidate(name);
      return true;
    }

    /** Forgets the name whether or not the service obliges; deleting what is not there succeeds. */
    method DeleteDestination(name: string, up: bool) returns (ok: bool)
      modifies this`cache, this`service
      ensures ok == up
      ensures service == if ok then old(service) - {name} else old(service)
      ensures cache == Forgotten(ttl, old(cache), name)
    {
      if up {
        service := service - {name};
      }
      Invalidate(name);
      return up;
    }
  }

  // ----- The calls as stretches of a concurrent run -----

  /** The cache of the concurrent model without the times its fetches began. */
  function View(cache: map<string, DC.Cached>): Cache {
    map name | name in cache :: (cache[name].dest, cache[name].fetchedAt)
  }

  /** The steps lead from s to t, and no time passes. */
  ghost predicate Leads(ttl: nat, s: DC.State, steps: seq<DC.Step>, t: DC.State)
    decreases |steps|
  {
    if steps == [] then s == t
    else exists mid :: DC.StepsTo(ttl, s, steps[0], mid) && mid.now == s.now && Leads(ttl, mid, steps[1..], t)
  }

  lemma {:induction false} LeadsOn(ttl: nat, s: DC.State, steps: seq<DC.Step>, t: DC.State, step: DC.Step, u: DC.State)
    requires Leads(ttl, s, steps, t) && DC.StepsTo(ttl, t, step, u) && u.now == t.now
    ensures Leads(ttl, s, steps + [step], u)
    decreases |steps|
  {
    hide DC.StepsTo;
    if steps == [] {
      assert steps + [step] == [step] && [step][1..] == [];
      assert Leads(ttl, u, [], u);
    } else {
      var mid :| DC.StepsTo(ttl, s, steps[0], mid) && mid.now == s.now && Leads(ttl, mid, steps[1..], t);
      LeadsOn(ttl, mid, steps[1..], t, step, u);
      assert (steps + [step])[1..] == steps[1..] + [step];
    }
  }

  lemma Nothing(ttl: nat, s: DC.State)
    ensures Leads(ttl, s, [], s)
  {
  }

  /** The end of a call is the end of a list of steps. */
  ghost predicate Ends(ttl: nat, s: DC.State, steps: seq<DC.Step>, before: DC.State, t: DC.State) {
    && |steps| > 0 && Leads(ttl, s, steps[..|steps| - 1], before)
    && DC.StepsTo(ttl, before, steps[|steps| - 1], t) && Leads(ttl, s, steps, t)
  }

  lemma EndsWith(ttl: nat, s: DC.State, steps: seq<DC.Step>, before: DC.State, step: DC.Step, t: DC.State)
    requires Leads(ttl, s, steps, before) && DC.StepsTo(ttl, before, step, t) && t.now == before.now
    ensures Ends(ttl, s, steps + [step], before, t)
  {
    LeadsOn(ttl, s, steps, before, step, t);
    assert (steps + [step])[..|steps|] == steps;
    hide Leads, DC.StepsTo;
  }

  lemma Fetch(ttl: nat, s: DC.State, c: nat, name: string) returns (steps: seq<DC.Step>, before: DC.State, t: DC.State)
    requires c !in s.calls && !DC.Hit(ttl, s, name)
    ensures Ends(ttl, s, steps, before, t)
    ensures t == s.(cache := if ttl > 0 && name in s.remote then s.cache[name := DC.Cached(s.remote[name], s.now, s.now)] else s.cache)
    ensures DC.Returned(ttl, before, steps[|steps| - 1]) == if name in s.remote then Some((name, s.remote[name])) else None
  {
    Nothing(ttl, s);
    hide Leads, Ends;
    var a := s.(calls := s.calls[c := DC.Fetching(name, s.now)]);
    LeadsOn(ttl, s, [], s, DC.BeginGet(c, name), a);
    var b := a.(calls := a.calls[c := DC.Fetched(name, s.now, DC.Held(s.remote, name))]);
    LeadsOn(ttl, s, [] + [DC.BeginGet(c, name)], a, DC.Serve(c), b);
    t := s.(cache := if ttl > 0 && name in s.remote then s.cache[name := DC.Cached(s.remote[name], s.now, s.now)] else s.cache);
    assert t.calls == b.calls - {c};
    EndsWith(ttl, s, [] + [DC.BeginGet(c, name)] + [DC.Serve(c)], b, DC.EndGet(c), t);
    steps, before := [] + [DC.BeginGet(c, name)] + [DC.Serve(c)] + [DC.EndGet(c)], b;
  }

  lemma FetchFails(ttl: nat, s: DC.State, c: nat, name: string) returns (steps: seq<DC.Step>, before: DC.State)
    requires c !in s.calls && !DC.Hit(ttl, s, name)
    ensures Ends(ttl, s, steps, before, s) && DC.Returned(ttl, before, steps[|steps| - 1]) == None
  {
    Nothing(ttl, s);
    hide Leads, Ends;
    var a := s.(calls := s.calls[c := DC.Fetching(name, s.now)]);
    LeadsOn(ttl, s, [], s, DC.BeginGet(c, name), a);
    assert s.calls == a.calls - {c};
    EndsWith(ttl, s, [] + [DC.BeginGet(c, name)], a, DC.FailGet(c), s);
    steps, before := [] + [DC.BeginGet(c, name)] + [DC.FailGet(c)], a;
  }

  /** A read on its own: what it returns is what the last step returns, and what it remembers is what the steps cache. */
  lemma GetIsSteps(ttl: nat, s: DC.State, c: nat, name: string, up: bool) returns (steps: seq<DC.Step>, before: DC.State, t: DC.State)
    requires c !in s.calls
    ensures Ends(ttl, s, steps, before, t)
    ensures t == s.(cache := t.cache) && View(t.cache) == Remembered(ttl, View(s.cache), s.remote, name, s.now, up)
    ensures var answer := Answer(ttl, View(s.cache), s.remote, name, s.now, up);
            DC.Returned(ttl, before, steps[|steps| - 1]) == if answer.Found? then Some((name, answer.dest)) else None
  {
    if DC.Hit(ttl, s, name) {
      steps, before, t := [] + [DC.BeginGet(c, name)], s, s;
      Nothing(ttl, s);
      EndsWith(ttl, s, [], s, DC.BeginGet(c, name), s);
    } else if up {
      hide Ends;
      steps, before, t := Fetch(ttl, s, c, name);
    } else {
      hide Ends;
      t := s;
      steps, before := FetchFails(ttl, s, c, name);
    }
  }

  lemma WriteFails(ttl: nat, s: DC.State, earlier: seq<DC.Step>, now: DC.State, c: nat, name: string, dest: Option<string>)
    returns (steps: seq<DC.Step>, t: DC.State)
    requires Leads(ttl, s, earlier, now) && c !in now.calls
    ensures Leads(ttl, s, steps, t)
    ensures t == now.(cache := if dest.None? then DC.Evict(ttl, now.cache, name) else now.cache)
  {
    hide Leads;
    var a := now.(calls := now.calls[c := DC.Writing(name, dest)]);
    LeadsOn(ttl, s, earlier, now, DC.BeginWrite(c, name, dest), a);
    t := now.(cache := if dest.None? then DC.Evict(ttl, now.cache, name) else now.cache);
    assert t.calls == a.calls - {c};
    LeadsOn(ttl, s, earlier + [DC.BeginWrite(c, name, dest)], a, DC.FailWrite(c), t);
    steps := earlier + [DC.BeginWrite(c, name, dest)] + [DC.FailWrite(c)];
  }

  lemma WriteWorks(ttl: nat, s: DC.State, earlier: seq<DC.Step>, now: DC.State, c: nat, name: string, dest: Option<string>)
    returns (steps: seq<DC.Step>, t: DC.State)
    requires Leads(ttl, s, earlier, now) && c !in now.calls
    ensures Leads(ttl, s, steps, t)
    ensures t == now.(remote := DC.Set(now.remote, name, dest), cache := DC.Evict(ttl, now.cache, name))
  {
    hide Leads, DC.Set, DC.Evict;
    var a := now.(calls := now.calls[c := DC.Writing(name, dest)]);
    LeadsOn(ttl, s, earlier, now, DC.BeginWrite(c, name, dest), a);
    var b := a.(remote := DC.Set(now.remote, name, dest), calls := a.calls[c := DC.Written(name)]);
    LeadsOn(ttl, s, earlier + [DC.BeginWrite(c, name, dest)], a, DC.Write(c), b);
    t := now.(remote := b.remote, cache := DC.Evict(ttl, now.cache, name));
    assert t.calls == b.calls - {c};
    LeadsOn(ttl, s, earlier + [DC.BeginWrite(c, name, dest)] + [DC.Write(c)], b, DC.EndWrite(c), t);
    steps := earlier + [DC.BeginWrite(c, name, dest)] + [DC.Write(c)] + [DC.EndWrite(c)];
  }

  lemma EvictForgets(ttl: nat, cache: map<string, DC.Cached>, name: string)
    ensures View(DC.Evict(ttl, cache, name)) == Forgotten(ttl, View(cache), name)
  {
  }

  /** An upsert on its own is its look-up and its write. */
  lemma UpsertIsSteps(ttl: nat, s: DC.State, c: nat, name: string, dest: string, up: bool, accepted: bool) returns (steps: seq<DC.Step>, t: DC.State)
    requires c !in s.calls
    ensures Leads(ttl, s, steps, t) && t == s.(remote := t.remote, cache := t.cache)
    ensures var ok := Upserts(ttl, View(s.cache), name, s.now, up, accepted);
            var looked := Remembered(ttl, View(s.cache), s.remote, name, s.now, up);
            && t.remote == (if ok then s.remote[name := dest] else s.remote)
            && View(t.cache) == if ok then Forgotten(ttl, looked, name) else looked
  {
    var before;
    steps, before, t := GetIsSteps(ttl, s, c, name, up);
    hide Leads, View, Remembered, DC.StepsTo, DC.Returned, DC.Evict;
    if accepted && Answer(ttl, View(s.cache), s.remote, name, s.now, up) != Lookup.Refused {
      EvictForgets(ttl, t.cache, name);
      steps, t := WriteWorks(ttl, s, steps, t, c, name, Some(dest));
    } else if !accepted && Answer(ttl, View(s.cache), s.remote, name, s.now, up) != Lookup.Refused {
      steps, t := WriteFails(ttl, s, steps, t, c, name, Some(dest));
    }
  }

  lemma DeleteIsSteps(ttl: nat, s: DC.State, c: nat, name: string, up: bool) returns (steps: seq<DC.Step>, t: DC.State)
    requires c !in s.calls
    ensures Leads(ttl, s, steps, t) && t == s.(remote := t.remote, cache := t.cache)
    ensures t.remote == if up then s.remote - {name} else s.remote
    ensures View(t.cache) == Forgotten(ttl, View(s.cache), name)
  {
    Nothing(ttl, s);
    hide Leads;
    EvictForgets(ttl, s.cache, name);
    if up {
      steps, t := WriteWorks(ttl, s, [], s, c, name, None);
    } else {
      steps, t := WriteFails(ttl, s, [], s, c, name, None);
    }
  }

  lemma InvalidateIsStep(ttl: nat, s: DC.State, name: string) returns (t: DC.State)
    ensures Leads(ttl, s, [DC.Invalidate(name)], t) && t == s.(cache := t.cache)
    ensures View(t.cache) == Forgotten(ttl, View(s.cache), name)
  {
    t := s.(cache := DC.Evict(ttl, s.cache, name));
    Nothing(ttl, s);
    LeadsOn(ttl, s, [], s, DC.Invalidate(name), t);
    EvictForgets(ttl, s.cache, name);
    assert [] + [DC.Invalidate(name)] == [DC.Invalidate(name)];
  }

  /** Forgetting everything is one step; where nothing is cached it changes nothing. */
  lemma InvalidateAllIsStep(ttl: nat, s: DC.State) returns (t: DC.State)
    ensures Leads(ttl, s, [DC.InvalidateAll], t) && t == s.(cache := t.cache)
    ensures if ttl == 0 then t == s else t.cache == map[]
    ensures forall name, now :: !Young(ttl, View(t.cache), name, now)
  {
    t := s.(cache := if ttl == 0 then s.cache else map[]);
    Nothing(ttl, s);
    LeadsOn(ttl, s, [], s, DC.InvalidateAll, t);
    assert [] + [DC.InvalidateAll] == [DC.InvalidateAll];
  }
}
