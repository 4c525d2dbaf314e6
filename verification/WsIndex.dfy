/** Who watches which delivery request, kept from both ends, and the interleavings of the connections that use it. */
module WsIndex {

  /** The channel a connection is written from. */
  const BUFFER := 64

  function Watchers<C(==)>(index: map<nat, set<C>>, dr: nat): set<C> {
    if dr in index then index[dr] else {}
  }

  function Add<C(==)>(index: map<nat, set<C>>, dr: nat, c: C): map<nat, set<C>> {
    index[dr := Watchers(index, dr) + {c}]
  }

  /** A request nobody watches any more has no entry. */
  function Remove<C(==)>(index: map<nat, set<C>>, dr: nat, c: C): map<nat, set<C>> {
    if Watchers(index, dr) - {c} == {} then index - {dr} else index[dr := index[dr] - {c}]
  }

  ghost predicate NoneEmpty<C>(index: map<nat, set<C>>) {
    forall dr | dr in index :: index[dr] != {}
  }

  lemma AddAt<C>(index: map<nat, set<C>>, dr: nat, c: C)
    requires NoneEmpty(index)
    ensures NoneEmpty(Add(index, dr, c))
    ensures forall d :: Watchers(Add(index, dr, c), d) == if d == dr then Watchers(index, d) + {c} else Watchers(index, d)
  {
    assert c in Watchers(index, dr) + {c};
  }

  lemma RemoveAt<C>(index: map<nat, set<C>>, dr: nat, c: C)
    requires NoneEmpty(index) && dr in index
    ensures NoneEmpty(Remove(index, dr, c))
    ensures forall d :: Watchers(Remove(index, dr, c), d) == if d == dr then Watchers(index, d) - {c} else Watchers(index, d)
  {
  }

  /** A connection that hung up is first taken out of the index, then its channel is closed. */
  datatype Stage = Open | Unregistered | Closed

  datatype Conn = Conn(stage: Stage, watching: set<nat>, send: seq<string>)

  /** A publication under way holds the read lock; todo are the watchers it has not come to yet. */
  datatype Publication = Publication(dr: nat, data: string, todo: set<nat>)

  datatype State = State(index: map<nat, set<nat>>, conns: map<nat, Conn>, publications: map<nat, Publication>)

  datatype Step =
    | Connect(c: nat)
    | Subscribe(c: nat, dr: nat)
    | Unsubscribe(c: nat, dr: nat)
    | Unregister(c: nat)
    | Close(c: nat)
    | BeginPublish(p: nat, dr: nat, data: string)
    | Send(p: nat, c: nat)
    | EndPublish(p: nat)
    | Drain(c: nat)

  /** The index without one connection. */
  function RemoveAll(index: map<nat, set<nat>>, drs: set<nat>, c: nat): map<nat, set<nat>> {
    map dr | dr in index && !(dr in drs && index[dr] - {c} == {}) :: if dr in drs then index[dr] - {c} else index[dr]
  }

  /** Subscriptions come from the connection's own read loop, which ends in its disconnection; changes of the index
      exclude publications, but closing the channel does not. */
  ghost predicate StepsTo(s: State, step: Step, t: State) {
    match step
    case Connect(c) => c !in s.conns && t == s.(conns := s.conns[c := Conn(Open, {}, [])])
    case Subscribe(c, dr) =>
      && s.publications == map[] && c in s.conns && s.conns[c].stage == Open
      && t == s.(index := Add(s.index, dr, c), conns := s.conns[c := s.conns[c].(watching := s.conns[c].watching + {dr})])
    case Unsubscribe(c, dr) =>
      && s.publications == map[] && c in s.conns && s.conns[c].stage == Open
      && t == s.(index := if dr in s.index then Remove(s.index, dr, c) else s.index,
                 conns := s.conns[c := s.conns[c].(watching := s.conns[c].watching - {dr})])
    case Unregister(c) =>
      && s.publications == map[] && c in s.conns && s.conns[c].stage == Open
      && t == s.(index := RemoveAll(s.index, s.conns[c].watching, c),
                 conns := s.conns[c := s.conns[c].(stage := Unregistered, watching := {})])
    case Close(c) =>
      && c in s.conns && s.conns[c].stage == Unregistered
      && t == s.(conns := s.conns[c := s.conns[c].(stage := Closed)])
    case BeginPublish(p, dr, data) =>
      p !in s.publications && t == s.(publications := s.publications[p := Publication(dr, data, Watchers(s.index, dr))])
    case Send(p, c) =>
      && p in s.publications && c in s.publications[p].todo && c in s.conns
      && t == s.(conns := s.conns[c := s.conns[c].(send := Enqueue(s.conns[c].send, s.publications[p].data))],
                 publications := s.publications[p := s.publications[p].(todo := s.publications[p].todo - {c})])
    case EndPublish(p) =>
      p in s.publications && s.publications[p].todo == {} && t == s.(publications := s.publications - {p})
    case Drain(c) =>
      c in s.conns && s.conns[c].send != [] && t == s.(conns := s.conns[c := s.conns[c].(send := s.conns[c].send[1..])])
  }

  /** A full channel drops the event. */
  function Enqueue(send: seq<string>, data: string): seq<string> {
    if |send| < BUFFER then send + [data] else send
  }

  ghost predicate Next(s: State, t: State) {
    exists step :: StepsTo(s, step, t)
  }

  ghost predicate Run(states: seq<State>) {
    && |states| > 0 && states[0] == State(map[], map[], map[])
    && forall i | 0 <= i < |states| - 1 :: Next(states[i], states[i + 1])
  }

  ghost predicate TwoWay(s: State) {
    && NoneEmpty(s.index)
    && (forall c, dr | c in s.conns :: dr in s.conns[c].watching <==> c in Watchers(s.index, dr))
    && (forall dr, c | c in Watchers(s.index, dr) :: c in s.conns)
  }

  ghost predicate Inv(s: State) {
    && TwoWay(s)
    && (forall c | c in s.conns && s.conns[c].stage != Open :: s.conns[c].watching == {})
    && (forall c | c in s.conns :: |s.conns[c].send| <= BUFFER)
    && (forall p | p in s.publications :: s.publications[p].todo <= Watchers(s.index, s.publications[p].dr))
  }

  lemma RemoveAllAt(index: map<nat, set<nat>>, drs: set<nat>, c: nat)
    requires NoneEmpty(index)
    ensures NoneEmpty(RemoveAll(index, drs, c))
    ensures forall d :: Watchers(RemoveAll(index, drs, c), d) == if d in drs then Watchers(index, d) - {c} else Watchers(index, d)
  {
  }

  /** Changing what one connection watches, at both ends. */
  lemma BothEnds(s: State, t: State, c: nat)
    requires Inv(s) && c in s.conns && t.conns.Keys == s.conns.Keys && NoneEmpty(t.index)
    requires forall d | d in s.conns && d != c :: t.conns[d] == s.conns[d]
    requires forall dr, d | d != c :: d in Watchers(t.index, dr) <==> d in Watchers(s.index, dr)
    requires forall dr :: dr in t.conns[c].watching <==> c in Watchers(t.index, dr)
    ensures TwoWay(t)
  {
  }

  lemma IndexStepsKeep(s: State, step: Step, t: State)
    requires Inv(s) && StepsTo(s, step, t) && (step.Subscribe? || step.Unsubscribe? || step.Unregister?)
    ensures Inv(t)
  {
    var c := step.c;
    if step.Subscribe? {
      AddAt(s.index, step.dr, c);
    } else if step.Unsubscribe? {
      if step.dr in s.index { RemoveAt(s.index, step.dr, c); }
    } else {
      RemoveAllAt(s.index, s.conns[c].watching, c);
    }
    hide Add, Remove, RemoveAll, Watchers, NoneEmpty;
    BothEnds(s, t, c);
  }

  lemma OtherStepsKeep(s: State, step: Step, t: State)
    requires Inv(s) && StepsTo(s, step, t) && !(step.Subscribe? || step.Unsubscribe? || step.Unregister?)
    ensures Inv(t)
  {
    hide Add, Remove, RemoveAll;
    assert step.Connect? ==> forall dr :: step.c !in Watchers(s.index, dr);
  }

  lemma StartKeeps()
    ensures Inv(State(map[], map[], map[]))
  {
  }

  lemma {:induction false} RunKeeps(states: seq<State>, i: nat)
    requires Run(states) && i < |states|
    ensures Inv(states[i])
  {
    StartKeeps();
    hide StepsTo, Inv;
    if i > 0 {
      RunKeeps(states, i - 1);
      assert Next(states[i - 1], states[i - 1 + 1]);
      var step :| StepsTo(states[i - 1], step, states[i]);
      if step.Subscribe? || step.Unsubscribe? || step.Unregister? {
        IndexStepsKeep(states[i - 1], step, states[i]);
      } else {
        OtherStepsKeep(states[i - 1], step, states[i]);
      }
    }
  }

  /** In every interleaving the two ends of the index agree, no empty entry is kept, and a connection that hung up
      appears nowhere. */
  lemma IndexAgrees(states: seq<State>, i: nat, c: nat, dr: nat)
    requires Run(states) && i < |states| && c in states[i].conns
    ensures c in Watchers(states[i].index, dr) <==> dr in states[i].conns[c].watching
    ensures dr in states[i].index ==> states[i].index[dr] != {}
    ensures states[i].conns[c].stage != Open ==> c !in Watchers(states[i].index, dr)
  {
    RunKeeps(states, i);
  }

  /** No publication ever has a closed channel before it, even though closing does not wait for publications. */
  lemma NeverSendsOnClosed(states: seq<State>, i: nat, p: nat, c: nat)
    requires Run(states) && i < |states| && p in states[i].publications && c in states[i].publications[p].todo
    ensures c in states[i].conns && states[i].conns[c].stage == Open
  {
    RunKeeps(states, i);
    assert c in Watchers(states[i].index, states[i].publications[p].dr);
  }
}
