/** The hub's calls, which WsHub proves one at a time, as stretches of an interleaving in which nobody else takes a step. */
module WsCalls {
  import opened WsIndex

  /** Taking these steps one after the other leads from s to t. */
  ghost predicate Leads(s: State, steps: seq<Step>, t: State)
    decreases |steps|
  {
    if steps == [] then s == t else exists mid :: StepsTo(s, steps[0], mid) && Leads(mid, steps[1..], t)
  }

  lemma LeadsFirst(s: State, step: Step, mid: State, steps: seq<Step>, t: State)
    requires StepsTo(s, step, mid) && Leads(mid, steps, t)
    ensures Leads(s, [step] + steps, t)
  {
    hide StepsTo;
    assert ([step] + steps)[1..] == steps;
  }

  /** The same watchers everywhere but at dr, where they are these. */
  ghost predicate WatchedBy(before: map<nat, set<nat>>, after: map<nat, set<nat>>, dr: nat, watchers: set<nat>) {
    forall d :: Watchers(after, d) == if d == dr then watchers else Watchers(before, d)
  }

  lemma ConnectAlone(s: State, c: nat) returns (t: State)
    requires c !in s.conns
    ensures Leads(s, [Connect(c)], t) && t == s.(conns := s.conns[c := Conn(Open, {}, [])])
  {
    t := s.(conns := s.conns[c := Conn(Open, {}, [])]);
    LeadsFirst(s, Connect(c), t, [], t);
  }

  lemma SubscribeAlone(s: State, c: nat, dr: nat) returns (t: State)
    requires Inv(s) && s.publications == map[] && c in s.conns && s.conns[c].stage == Open
    ensures Leads(s, [Subscribe(c, dr)], t) && WatchedBy(s.index, t.index, dr, Watchers(s.index, dr) + {c})
    ensures t == s.(index := t.index, conns := s.conns[c := s.conns[c].(watching := s.conns[c].watching + {dr})])
  {
    t := s.(index := Add(s.index, dr, c), conns := s.conns[c := s.conns[c].(watching := s.conns[c].watching + {dr})]);
    AddAt(s.index, dr, c);
    LeadsFirst(s, Subscribe(c, dr), t, [], t);
  }

  lemma UnsubscribeAlone(s: State, c: nat, dr: nat) returns (t: State)
    requires Inv(s) && s.publications == map[] && c in s.conns && s.conns[c].stage == Open
    ensures Leads(s, [Unsubscribe(c, dr)], t) && WatchedBy(s.index, t.index, dr, Watchers(s.index, dr) - {c})
    ensures t == s.(index := t.index, conns := s.conns[c := s.conns[c].(watching := s.conns[c].watching - {dr})])
  {
    t := s.(index := if dr in s.index then Remove(s.index, dr, c) else s.index,
            conns := s.conns[c := s.conns[c].(watching := s.conns[c].watching - {dr})]);
    if dr in s.index { RemoveAt(s.index, dr, c); }
    LeadsFirst(s, Unsubscribe(c, dr), t, [], t);
  }

  /** A connection that hangs up is taken out of every entry, and then closed. */
  lemma DisconnectAlone(s: State, c: nat) returns (t: State)
    requires Inv(s) && s.publications == map[] && c in s.conns && s.conns[c].stage == Open
    ensures Leads(s, [Unregister(c), Close(c)], t) && forall d :: Watchers(t.index, d) == Watchers(s.index, d) - {c}
    ensures t == s.(index := t.index, conns := s.conns[c := s.conns[c].(stage := Closed, watching := {})])
  {
    var index := RemoveAll(s.index, s.conns[c].watching, c);
    var mid := s.(index := index, conns := s.conns[c := s.conns[c].(stage := Unregistered, watching := {})]);
    t := s.(index := index, conns := s.conns[c := s.conns[c].(stage := Closed, watching := {})]);
    assert t.conns == mid.conns[c := mid.conns[c].(stage := Closed)];
    forall d ensures Watchers(t.index, d) == Watchers(s.index, d) - {c} {
      assert d in s.conns[c].watching <==> c in Watchers(s.index, d);
    }
    LeadsFirst(mid, Close(c), t, [], t);
    LeadsFirst(s, Unregister(c), mid, [Close(c)], t);
    assert [Unregister(c)] + [Close(c)] == [Unregister(c), Close(c)];
    assert [Close(c)] + [] == [Close(c)];
  }

  /** The event in the channels of these connections. */
  function Sent(conns: map<nat, Conn>, to: set<nat>, data: string): map<nat, Conn> {
    map c | c in conns :: if c in to then conns[c].(send := if |conns[c].send| < 64 then conns[c].send + [data] else conns[c].send)
                          else conns[c]
  }

  lemma {:induction false} SendsOut(s: State, p: nat) returns (steps: seq<Step>, t: State)
    requires p in s.publications && s.publications[p].todo <= s.conns.Keys
    ensures Leads(s, steps, t)
    ensures t == s.(conns := Sent(s.conns, s.publications[p].todo, s.publications[p].data), publications := s.publications - {p})
    decreases |s.publications[p].todo|
  {
    var pub := s.publications[p];
    if pub.todo == {} {
      assert Sent(s.conns, {}, pub.data) == s.conns;
      t := s.(publications := s.publications - {p});
      LeadsFirst(s, EndPublish(p), t, [], t);
      steps := [EndPublish(p)] + [];
    } else {
      var c :| c in pub.todo;
      var mid := s.(conns := s.conns[c := s.conns[c].(send := Enqueue(s.conns[c].send, pub.data))],
                    publications := s.publications[p := pub.(todo := pub.todo - {c})]);
      assert StepsTo(s, Send(p, c), mid);
      hide StepsTo, Leads;
      var rest;
      rest, t := SendsOut(mid, p);
      assert Sent(mid.conns, pub.todo - {c}, pub.data) == Sent(s.conns, pub.todo, pub.data);
      assert mid.publications - {p} == s.publications - {p};
      LeadsFirst(s, Send(p, c), mid, rest, t);
      steps := [Send(p, c)] + rest;
    }
  }

  /** A publication reaches every watcher whose channel has room for one of its 64 events, and nobody else. */
  lemma PublishAlone(s: State, p: nat, dr: nat, data: string) returns (steps: seq<Step>, t: State)
    requires Inv(s) && p !in s.publications
    ensures Leads(s, steps, t) && t == s.(conns := Sent(s.conns, Watchers(s.index, dr), data))
  {
    var mid := s.(publications := s.publications[p := Publication(dr, data, Watchers(s.index, dr))]);
    assert StepsTo(s, BeginPublish(p, dr, data), mid);
    assert Watchers(s.index, dr) <= s.conns.Keys;
    hide StepsTo, Leads, Sent;
    var rest;
    rest, t := SendsOut(mid, p);
    assert mid.publications - {p} == s.publications;
    LeadsFirst(s, BeginPublish(p, dr, data), mid, rest, t);
    steps := [BeginPublish(p, dr, data)] + rest;
  }
}
