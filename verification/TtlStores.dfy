/** The three stores of the service as they are updated in place. Random tokens and the cookie signature are inputs. */
module TtlStores {
  import opened Strings
  import opened Expiry

  /** Tokens of the GitHub App manifest flow. */
  class ManifestStates {
    var m: map<string, (string, int)>      // payload and expiry
    const ttl: int

    constructor (ttl: int)
      ensures this.ttl == ttl && m == map[]
    {
      this.ttl := ttl;
      m := map[];
    }

    function Entries(): Store
      reads this
    {
      map k | k in m :: Entry(m[k].0, Some(m[k].1))
    }

    method GcLocked(now: int)
      modifies this`m
      ensures Entries() == After(old(Entries()), now, Clean(old(m).Keys))
    {
      var todo := m.Keys;
      while todo != {}
        invariant todo <= m.Keys
        invariant forall k :: k in m <==> k in old(m) && (k in todo || now <= old(m)[k].1)
        invariant forall k | k in m :: m[k] == old(m)[k]
        decreases todo
      {
        var k :| k in todo;
        todo := todo - {k};
        if now > m[k].1 { m := m - {k}; }
      }
    }

    method Issue(token: string, payload: string, now: int)
      modifies this`m
      ensures Entries() == After(After(old(Entries()), now, Clean(old(m).Keys)), now, Put(token, Entry(payload, Some(now + ttl))))
    {
      GcLocked(now);
      label collected:
      m := m[token := (payload, now + ttl)];
      assert Entries() == old@collected(Entries())[token := Entry(payload, Some(now + ttl))];
    }

    /** The empty token is refused without a look. */
    method Consume(token: string, now: int) returns (r: Option<string>)
      modifies this`m
      ensures token == "" ==> r.None? && m == old(m)
      ensures token != "" ==> r == Answer(old(Entries()), now, Take(token)) && Entries() == After(old(Entries()), now, Take(token))
    {
      if token == "" || token !in m {
        assert token !in m ==> Entries() == Entries() - {token};
        return None;
      }
      var e := m[token];
      m := m - {token};
      assert Entries() == old(Entries()) - {token};
      return if now > e.1 then None else Some(e.0);
    }
  }

  const STATE_TTL := 5 * 60 * 1000000000

  /** State parameters of the OAuth2 flow. */
  class OAuthStates {
    var states: map<string, (int, string)>      // creation time and redirect target

    constructor ()
      ensures states == map[]
    {
      states := map[];
    }

    function Entries(): Store
      reads this
    {
      map k | k in states :: Entry(states[k].1, Some(states[k].0 + STATE_TTL))
    }

    method Generate(state: string, redirectURI: string, now: int)
      modifies this`states
      ensures Entries() == After(old(Entries()), now, Put(state, Entry(redirectURI, Some(now + STATE_TTL))))
    {
      states := states[state := (now, redirectURI)];
      assert Entries() == old(Entries())[state := Entry(redirectURI, Some(now + STATE_TTL))];
    }

    method Validate(state: string, now: int) returns (r: Option<string>)
      modifies this`states
      ensures r == Answer(old(Entries()), now, Take(state)) && Entries() == After(old(Entries()), now, Take(state))
    {
      if state !in states {
        assert Entries() == Entries() - {state};
        return None;
      }
      var entry := states[state];
      states := states - {state};
      assert Entries() == old(Entries()) - {state};
      return if now - entry.0 > STATE_TTL then None else Some(entry.1);
    }

    /** One tick of the background loop. */
    method Cleanup(now: int)
      modifies this`states
      ensures Entries() == After(old(Entries()), now, Clean(old(states).Keys))
    {
      var todo := states.Keys;
      while todo != {}
        invariant todo <= states.Keys
        invariant forall k :: k in states <==> k in old(states) && (k in todo || now - old(states)[k].0 <= STATE_TTL)
        invariant forall k | k in states :: states[k] == old(states)[k]
        decreases todo
      {
        var k :| k in todo;
        todo := todo - {k};
        if now - states[k].0 > STATE_TTL { states := states - {k}; }
      }
    }
  }

  /** Sessions; without a maximum age they never expire. */
  class Sessions {
    var sessions: map<string, (int, string)>      // creation time and data
    const maxAge: int

    constructor (maxAge: int)
      ensures this.maxAge == maxAge && sessions == map[]
    {
      this.maxAge := maxAge;
      sessions := map[];
    }

    function Last(createdAt: int): Option<int> {
      if maxAge > 0 then Some(createdAt + maxAge) else None
    }

    function Entries(): Store
      reads this
    {
      map k | k in sessions :: Entry(sessions[k].1, Last(sessions[k].0))
    }

    /** A session that carries no creation time is created now. */
    method Create(id: string, createdAt: Option<int>, data: string, now: int)
      modifies this`sessions
      ensures var at := if createdAt.Some? then createdAt.value else now;
              Entries() == After(old(Entries()), now, Put(id, Entry(data, Last(at))))
    {
      var at := if createdAt.Some? then createdAt.value else now;
      sessions := sessions[id := (at, data)];
      assert Entries() == old(Entries())[id := Entry(data, Last(at))];
    }

    /** id is what the cookie's signature vouches for, if anything. */
    method Get(id: Option<string>, now: int) returns (r: Option<string>)
      modifies this`sessions
      ensures id.None? ==> r.None? && sessions == old(sessions)
      ensures id.Some? ==> r == Answer(old(Entries()), now, Peek(id.value)) && Entries() == After(old(Entries()), now, Peek(id.value))
    {
      if id.None? || id.value !in sessions { return None; }
      var data := sessions[id.value];
      if maxAge > 0 && now - data.0 > maxAge {
        sessions := sessions - {id.value};
        return None;
      }
      return Some(data.1);
    }

    method Delete(id: Option<string>, now: int)
      modifies this`sessions
      ensures id.None? ==> sessions == old(sessions)
      ensures id.Some? ==> Entries() == After(old(Entries()), now, Drop(id.value))
    {
      if id.None? { return; }
      sessions := sessions - {id.value};
      assert Entries() == old(Entries()) - {id.value};
    }

    method Cleanup(now: int)
      modifies this`sessions
      ensures Entries() == After(old(Entries()), now, Clean(old(sessions).Keys))
    {
      var todo := sessions.Keys;
      while todo != {}
        invariant todo <= sessions.Keys
        invariant forall k :: k in sessions <==> k in old(sessions) && (k in todo || !(maxAge > 0 && now - old(sessions)[k].0 > maxAge))
        invariant forall k | k in sessions :: sessions[k] == old(sessions)[k]
        decreases todo
      {
        var k :| k in todo;
        todo := todo - {k};
        if maxAge > 0 && now - sessions[k].0 > maxAge { sessions := sessions - {k}; }
      }
    }
  }
}
