/** The hub and its connections as they are updated in place, one call at a time. */
module WsHub {
  import opened WsIndex

  class WsConn {
    var watching: set<nat>
    var send: seq<string>
    var closed: bool

    constructor ()
      ensures watching == {} && send == [] && !closed
    {
      watching, send, closed := {}, [], false;
    }
  }

  class Hub {
    var drWatchers: map<nat, set<WsConn>>
    /** Every connection made so far. */
    ghost var conns: set<WsConn>

    /** Both ends agree, nothing is empty, and only open channels are watched for. */
    ghost predicate Valid()
      reads this, conns
    {
      && NoneEmpty(drWatchers)
      && (forall c, dr | c in conns :: dr in c.watching <==> c in Watchers(drWatchers, dr))
      && (forall dr | dr in drWatchers :: drWatchers[dr] <= conns)
      && (forall c | c in conns && c.closed :: c.watching == {})
    }

    constructor ()
      ensures Valid() && conns == {} && drWatchers == map[]
    {
      drWatchers, conns := map[], {};
    }

    method NewConn() returns (c: WsConn)
      requires Valid()
      modifies this`conns
      ensures Valid() && fresh(c) && conns == old(conns) + {c} && c.watching == {} && !c.closed
    {
      c := new WsConn();
      conns := conns + {c};
    }

    method Subscribe(c: WsConn, dr: nat)
      requires Valid() && c in conns && !c.closed
      modifies this`drWatchers, c`watching
      ensures Valid()
      ensures Watchers(drWatchers, dr) == Watchers(old(drWatchers), dr) + {c}
      ensures forall other | other != dr :: Watchers(drWatchers, other) == Watchers(old(drWatchers), other)
      ensures c.watching == old(c.watching) + {dr}
    {
      AddAt(drWatchers, dr, c);
      if dr !in drWatchers { drWatchers := drWatchers[dr := {}]; }
      drWatchers := drWatchers[dr := drWatchers[dr] + {c}];
      assert drWatchers == Add(old(drWatchers), dr, c);
      c.watching := c.watching + {dr};
      forall d, other | d in conns ensures other in d.watching <==> d in Watchers(drWatchers, other) {
        assert other in old(d.watching) <==> d in Watchers(old(drWatchers), other);
      }
    }

    method Unsubscribe(c: WsConn, dr: nat)
      requires Valid() && c in conns
      modifies this`drWatchers, c`watching
      ensures Valid()
      ensures Watchers(drWatchers, dr) == Watchers(old(drWatchers), dr) - {c}
      ensures forall other | other != dr :: Watchers(drWatchers, other) == Watchers(old(drWatchers), other)
      ensures c.watching == old(c.watching) - {dr}
    {
      if dr in drWatchers {
        drWatchers := Remove(drWatchers, dr, c);
      }
      c.watching := c.watching - {dr};
      forall d, other | d in conns ensures other in d.watching <==> d in Watchers(drWatchers, other) {
        assert other in old(d.watching) <==> d in Watchers(old(drWatchers), other);
      }
    }

    /** Takes the connection out of every entry, then closes its channel; a second call does nothing. */
    method Disconnect(c: WsConn)
      requires Valid() && c in conns
      modifies this`drWatchers, c`watching, c`closed
      ensures Valid() && c.closed && c.watching == {}
      ensures !old(c.closed) ==> forall dr :: Watchers(drWatchers, dr) == Watchers(old(drWatchers), dr) - {c}
      ensures old(c.closed) ==> drWatchers == old(drWatchers)
    {
      if c.closed { return; }
      var todo := c.watching;
      while todo != {}
        invariant todo <= c.watching
        invariant c.watching == old(c.watching) && !c.closed
        invariant NoneEmpty(drWatchers)
        invariant forall dr :: Watchers(drWatchers, dr) == if dr in c.watching && dr !in todo then Watchers(old(drWatchers), dr) - {c}
                                                           else Watchers(old(drWatchers), dr)
        decreases todo
      {
        var dr :| dr in todo;
        todo := todo - {dr};
        if dr in drWatchers {
          drWatchers := Remove(drWatchers, dr, c);
        }
      }
      c.watching := {};
      c.closed := true;
      forall dr ensures Watchers(drWatchers, dr) == Watchers(old(drWatchers), dr) - {c} {
        if c in Watchers(old(drWatchers), dr) { assert dr in old(c.watching); }
      }
      forall d, dr | d in conns ensures dr in d.watching <==> d in Watchers(drWatchers, dr) {
        assert dr in old(d.watching) <==> d in Watchers(old(drWatchers), dr);
      }
      forall dr | dr in drWatchers ensures drWatchers[dr] <= conns {
        assert drWatchers[dr] == Watchers(drWatchers, dr) <= Watchers(old(drWatchers), dr);
      }
    }

    /** Every watcher gets the event, unless its channel is full; nobody else gets anything. */
    method PublishDrEvent(dr: nat, data: string)
      requires Valid()
      modifies Watchers(drWatchers, dr)
      ensures Valid()
      ensures forall c | c in Watchers(drWatchers, dr) :: !c.closed && c.send == Enqueue(old(c.send), data)
      ensures forall c | c in conns && c !in Watchers(drWatchers, dr) :: c.send == old(c.send)
      ensures forall c | c in conns :: c.watching == old(c.watching) && c.closed == old(c.closed)
    {
      var watchers := Watchers(drWatchers, dr);
      if watchers == {} { return; }
      var todo := watchers;
      while todo != {}
        invariant todo <= watchers == Watchers(drWatchers, dr)
        invariant Valid()
        invariant forall c | c in watchers && c !in todo :: c.send == Enqueue(old(c.send), data)
        invariant forall c | c in conns && (c !in watchers || c in todo) :: c.send == old(c.send)
        invariant forall c | c in conns :: c.watching == old(c.watching) && c.closed == old(c.closed)
        decreases todo
      {
        var c :| c in todo;
        todo := todo - {c};
        assert !c.closed;
        if |c.send| < BUFFER {
          c.send := c.send + [data];
        }
      }
    }
  }
}
