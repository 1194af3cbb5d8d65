/** What subscribers are told about changing tags: writer threads change the store, then call back
    into the server, which reads the tag again and queues it, all under one mutex. */
module TagCurrency {
  import opened Topics

  datatype Tag = Tag(value: int, ts: int)

  /** How far a thread has got with the change of one tag. */
  datatype Phase =
    | Idle
    | Changed(t: string, move: bool)  // stored; the callback is to come
    | Calling(t: string)              // on its way into the server
    | Inside(t: string)               // holds the server's mutex
    | InHand(t: string, ids: set<nat>, rec: Tag)  // subscribers found, tag read

  /** `outer` tells that the holder was handling a request when its own change called back. */
  datatype Mutex = Free | Held(i: nat, outer: bool)

  /** `last` is the last frame queued for a connection about a topic; `due` are the pairs whose topic
      changed since the connection subscribed to it. */
  datatype State = State(
    engine: map<string, Tag>, threads: map<nat, Phase>, mutex: Mutex,
    subs: map<nat, set<string>>, last: map<(nat, string), Tag>, due: set<(nat, string)>)

  datatype Action =
    | Write(i: nat, t: string, tag: Tag, move: bool)
    | CallBack(i: nat)
    | Lock(i: nat)
    | Read(i: nat)
    | Queue(i: nat)
    | Remove(t: string)
    | BeginRequest(i: nat)
    | Subscribe(i: nat, c: nat, patterns: set<string>)  // whatever the request makes of the patterns
    | EndRequest(i: nat)

  function PhaseOf(s: State, i: nat): Phase {
    if i in s.threads then s.threads[i] else Idle
  }

  ghost predicate Follows(s: State, c: nat, t: string) {
    c in s.subs && exists p <- s.subs[c] :: Matches(p, t)
  }

  ghost function Told(s: State, t: string): set<nat> {
    set c | c in s.subs && Follows(s, c, t)
  }

  /** With `exclusive` false the server would do without its mutex. */
  ghost predicate Enabled(s: State, a: Action, exclusive: bool) {
    match a
    case Write(i, _, _, _) => PhaseOf(s, i).Idle?
    case CallBack(i) => PhaseOf(s, i).Changed?
    case Lock(i) => PhaseOf(s, i).Calling? && (exclusive ==> s.mutex.Free? || s.mutex == Held(i, true))
    case Read(i) => PhaseOf(s, i).Inside?
    case Queue(i) => PhaseOf(s, i).InHand?
    case Remove(_) => true
    case BeginRequest(i) => PhaseOf(s, i).Idle? && s.mutex.Free?
    case Subscribe(i, _, _) => PhaseOf(s, i).Idle? && s.mutex == Held(i, true)
    case EndRequest(i) => PhaseOf(s, i).Idle? && s.mutex == Held(i, true)
  }

  function At(s: State, i: nat, p: Phase): State {
    s.(threads := s.threads[i := p])
  }

  /** Leaves the server: the mutex is given up unless a request still holds it. */
  function Leave(s: State, i: nat): State {
    At(s, i, Idle).(mutex := if s.mutex == Held(i, true) then s.mutex else Free)
  }

  ghost function NowDue(s: State, t: string): set<(nat, string)> {
    set c | c in Told(s, t) :: (c, t)
  }

  ghost function Step(s: State, a: Action): State {
    match a
    case Write(i, t, tag, move) =>
      var stored := s.(engine := s.engine[t := tag]);
      if t in s.engine && s.engine[t].value == tag.value then stored
      else At(stored, i, Changed(t, move)).(due := s.due + NowDue(s, t))
    case CallBack(i) =>
      var p := PhaseOf(s, i);
      if !p.Changed? then s
      // a moved-in tag is read back for the callback; an empty name never reads
      else if p.move && (p.t !in s.engine || p.t == "") then At(s, i, Idle)
      else At(s, i, Calling(p.t))
    case Lock(i) =>
      var p := PhaseOf(s, i);
      if !p.Calling? then s
      else At(s, i, Inside(p.t)).(mutex := if s.mutex == Held(i, true) then s.mutex else Held(i, false))
    case Read(i) =>
      var p := PhaseOf(s, i);
      if !p.Inside? then s
      else if Told(s, p.t) == {} || p.t !in s.engine || p.t == "" then Leave(s, i)
      else At(s, i, InHand(p.t, Told(s, p.t), s.engine[p.t]))
    case Queue(i) =>
      var p := PhaseOf(s, i);
      if !p.InHand? then s
      else Leave(s, i).(last := map k | k in s.last.Keys + (set c | c in p.ids :: (c, p.t)) ::
             if k.1 == p.t && k.0 in p.ids then p.rec else s.last[k])
    case Remove(t) => s.(engine := s.engine - {t})
    case BeginRequest(i) => s.(mutex := Held(i, true))
    case Subscribe(i, c, patterns) =>
      var n := s.(subs := s.subs[c := patterns]);
      n.(due := set k | k in s.due && (k.0 != c || Follows(n, c, k.1)))
    case EndRequest(i) => s.(mutex := Free)
  }

  // ---- Nobody is left with an old value ----

  /** A thread that is still going to read this topic. */
  ghost predicate Pending(s: State, t: string) {
    exists i <- s.threads :: (s.threads[i].Changed? || s.threads[i].Calling? || s.threads[i].Inside?) && s.threads[i].t == t
  }

  /** A thread that is about to queue a frame for this topic. */
  ghost predicate InTransit(s: State, t: string) {
    exists i <- s.threads :: s.threads[i].InHand? && s.threads[i].t == t
  }

  ghost predicate Current(s: State, c: nat, t: string) {
    t in s.engine && (c, t) in s.last && s.last[(c, t)].value == s.engine[t].value
  }

  /** Some thread holds exactly what this connection has to be told. */
  ghost predicate Fresh(s: State, c: nat, t: string) {
    exists i <- s.threads ::
      s.threads[i].InHand? && s.threads[i].t == t && c in s.threads[i].ids
      && t in s.engine && s.threads[i].rec.value == s.engine[t].value
  }

  ghost predicate Settled(s: State, c: nat, t: string) {
    t in s.engine && t != "" ==> Pending(s, t) || Fresh(s, c, t) || (Current(s, c, t) && !InTransit(s, t))
  }

  /** Only the holder of the mutex is inside, and what it found still is so. */
  ghost predicate MutexOk(s: State) {
    forall i <- s.threads ::
      && (s.threads[i].Inside? || s.threads[i].InHand? ==> s.mutex.Held? && s.mutex.i == i)
      && (s.threads[i].InHand? ==> s.threads[i].ids == Told(s, s.threads[i].t))
  }

  ghost predicate Inv(s: State) {
    && MutexOk(s)
    && (forall k <- s.due :: Follows(s, k.0, k.1))
    && (forall k <- s.due :: Settled(s, k.0, k.1))
  }

  /** Whenever nobody is still to tell, every connection that was subscribed before the last change
      has been told the present value last; only its timestamp may be older. */
  lemma QuietMeansCurrent(s: State, c: nat, t: string)
    requires Inv(s) && (c, t) in s.due && t in s.engine && t != ""
    requires forall i <- s.threads :: s.threads[i].Idle?
    ensures (c, t) in s.last && s.last[(c, t)].value == s.engine[t].value
  {
    assert Settled(s, c, t);
  }

  lemma StepMutex(s: State, a: Action)
    requires Inv(s) && Enabled(s, a, true)
    ensures MutexOk(Step(s, a))
  {}

  lemma StepFollows(s: State, a: Action)
    requires Inv(s) && Enabled(s, a, true)
    ensures forall k <- Step(s, a).due :: Follows(Step(s, a), k.0, k.1)
  {}

  ghost predicate About(p: Phase, t: string) {
    !p.Idle? && p.t == t
  }

  /** A thread that has nothing to do with this topic changes nothing about it. */
  lemma Elsewhere(s: State, n: State, i: nat, c: nat, t: string)
    requires Settled(s, c, t) && !About(PhaseOf(s, i), t) && !About(PhaseOf(n, i), t)
    requires forall j :: j != i ==> PhaseOf(n, j) == PhaseOf(s, j)
    requires t in n.engine ==> t in s.engine && n.engine[t].value == s.engine[t].value
    requires (c, t) in s.last ==> (c, t) in n.last && n.last[(c, t)] == s.last[(c, t)]
    ensures Settled(n, c, t)
  {
    if t in n.engine && t != "" {
      if Pending(s, t) {
        var j :| j in s.threads && (s.threads[j].Changed? || s.threads[j].Calling? || s.threads[j].Inside?) && s.threads[j].t == t;
        assert PhaseOf(n, j) == s.threads[j];
      } else if Fresh(s, c, t) {
        var j :| j in s.threads && s.threads[j].InHand? && s.threads[j].t == t && c in s.threads[j].ids
          && s.threads[j].rec.value == s.engine[t].value;
        assert PhaseOf(n, j) == s.threads[j];
      } else {
        TransitBack(s, n, i, t);
      }
    }
  }

  lemma TransitBack(s: State, n: State, i: nat, t: string)
    requires !About(PhaseOf(n, i), t) && forall j :: j != i ==> PhaseOf(n, j) == PhaseOf(s, j)
    ensures InTransit(n, t) ==> InTransit(s, t)
  {
    if InTransit(n, t) {
      var j :| j in n.threads && n.threads[j].InHand? && n.threads[j].t == t;
      assert PhaseOf(s, j) == PhaseOf(n, j);
    }
  }

  lemma WriteSettled(s: State, i: nat, t0: string, tag: Tag, move: bool, c: nat, t: string)
    requires Inv(s) && PhaseOf(s, i).Idle? && (c, t) in Step(s, Write(i, t0, tag, move)).due
    ensures Settled(Step(s, Write(i, t0, tag, move)), c, t)
  {
    var n := Step(s, Write(i, t0, tag, move));
    if PhaseOf(n, i) == Changed(t, move) {
      assert n.threads[i].Changed?;
    } else {
      assert (c, t) in s.due;
      Elsewhere(s, n, i, c, t);
    }
  }

  /** Still going to read: the callback, and entering the server. */
  lemma ApproachSettled(s: State, a: Action, c: nat, t: string)
    requires Inv(s) && Enabled(s, a, true) && (a.CallBack? || a.Lock?) && (c, t) in s.due
    ensures Settled(Step(s, a), c, t)
  {
    var n := Step(s, a);
    if PhaseOf(s, a.i).t == t {
      assert n.threads[a.i].Idle? ==> t !in n.engine || t == "";
      assert !n.threads[a.i].Idle? ==> n.threads[a.i].t == t;
    } else {
      Elsewhere(s, n, a.i, c, t);
    }
  }

  lemma ReadSettled(s: State, i: nat, c: nat, t: string)
    requires Inv(s) && Enabled(s, Read(i), true) && (c, t) in s.due
    ensures Settled(Step(s, Read(i)), c, t)
  {
    var n := Step(s, Read(i));
    if PhaseOf(s, i).t == t {
      assert c in Told(s, t);
      if t in s.engine && t != "" {
        assert n.threads[i] == InHand(t, Told(s, t), s.engine[t]);
      }
    } else {
      Elsewhere(s, n, i, c, t);
    }
  }

  /** Only one thread at a time can be about to queue a frame. */
  lemma OnlyHolder(s: State, i: nat)
    requires MutexOk(s) && PhaseOf(s, i).InHand?
    ensures forall j :: PhaseOf(s, j).InHand? ==> i == j
  {}

  lemma QueueSettled(s: State, i: nat, c: nat, t: string)
    requires Inv(s) && Enabled(s, Queue(i), true) && (c, t) in s.due
    ensures Settled(Step(s, Queue(i)), c, t)
  {
    var n, p := Step(s, Queue(i)), PhaseOf(s, i);
    if p.t != t {
      Elsewhere(s, n, i, c, t);
    } else if t in n.engine && t != "" {
      assert InTransit(s, t);
      if Pending(s, t) {
        var j :| j in s.threads && (s.threads[j].Changed? || s.threads[j].Calling? || s.threads[j].Inside?) && s.threads[j].t == t;
        assert n.threads[j] == s.threads[j];
      } else {
        QueuedIsCurrent(s, i, c, t);
      }
    }
  }

  /** Nobody else is still to tell, so what is queued is the present value. */
  lemma QueuedIsCurrent(s: State, i: nat, c: nat, t: string)
    requires Inv(s) && PhaseOf(s, i).InHand? && PhaseOf(s, i).t == t && Fresh(s, c, t)
    ensures var n := Step(s, Queue(i)); Current(n, c, t) && !InTransit(n, t)
  {
    var n, p := Step(s, Queue(i)), PhaseOf(s, i);
    var j :| j in s.threads && s.threads[j].InHand? && s.threads[j].t == t && c in s.threads[j].ids
      && s.threads[j].rec.value == s.engine[t].value;
    OnlyHolder(s, i);
    assert PhaseOf(s, j).InHand?;
    assert n.engine == s.engine && n.last[(c, t)] == p.rec;
    forall k | k in n.threads
      ensures !n.threads[k].InHand?
    {
      assert k != i ==> PhaseOf(n, k) == PhaseOf(s, k);
    }
  }

  lemma StepSettled(s: State, a: Action, c: nat, t: string)
    requires Inv(s) && Enabled(s, a, true) && (c, t) in Step(s, a).due
    ensures Settled(Step(s, a), c, t)
  {
    match a
    case Write(i, t0, tag, move) => WriteSettled(s, i, t0, tag, move, c, t);
    case CallBack(i) => ApproachSettled(s, a, c, t);
    case Lock(i) => ApproachSettled(s, a, c, t);
    case Read(i) => ReadSettled(s, i, c, t);
    case Queue(i) => QueueSettled(s, i, c, t);
    case Remove(_) => Unchanged(s, Step(s, a), c, t);
    case BeginRequest(_) => Unchanged(s, Step(s, a), c, t);
    case Subscribe(_, _, _) => Unchanged(s, Step(s, a), c, t);
    case EndRequest(_) => Unchanged(s, Step(s, a), c, t);
  }

  lemma Unchanged(s: State, n: State, c: nat, t: string)
    requires Settled(s, c, t) && n.threads == s.threads && n.last == s.last
    requires t in n.engine ==> t in s.engine && n.engine[t] == s.engine[t]
    ensures Settled(n, c, t)
  {}

  lemma StepKeeps(s: State, a: Action)
    requires Inv(s) && Enabled(s, a, true)
    ensures Inv(Step(s, a))
  {
    StepMutex(s, a);
    StepFollows(s, a);
    forall k | k in Step(s, a).due
      ensures Settled(Step(s, a), k.0, k.1)
    {
      StepSettled(s, a, k.0, k.1);
    }
  }

  ghost predicate CanRun(s: State, acts: seq<Action>, exclusive: bool)
    decreases |acts|
  {
    acts == [] || (Enabled(s, acts[0], exclusive) && CanRun(Step(s, acts[0]), acts[1..], exclusive))
  }

  ghost function Run(s: State, acts: seq<Action>): State
    decreases |acts|
  {
    if acts == [] then s else Run(Step(s, acts[0]), acts[1..])
  }

  const START := State(map[], map[], Free, map[], map[], {})

  lemma {:induction false} RunKeeps(s: State, acts: seq<Action>)
    requires Inv(s) && CanRun(s, acts, true)
    ensures Inv(Run(s, acts))
    decreases |acts|
  {
    if acts != [] {
      StepKeeps(s, acts[0]);
      RunKeeps(Step(s, acts[0]), acts[1..]);
    }
  }

  /** With any number of writers, requests and removals interleaved in any way: as soon as no change
      is still being told, every connection subscribed before a tag's last change was told the value
      the tag has now, and told it last. */
  lemma LastFrameIsCurrent(acts: seq<Action>, c: nat, t: string)
    requires CanRun(START, acts, true)
    requires var s := Run(START, acts); (c, t) in s.due && t in s.engine && t != ""
    requires forall i <- Run(START, acts).threads :: Run(START, acts).threads[i].Idle?
    ensures var s := Run(START, acts); (c, t) in s.last && s.last[(c, t)].value == s.engine[t].value
  {
    RunKeeps(START, acts);
    QuietMeansCurrent(Run(START, acts), c, t);
  }

  // ---- What the mutex is for ----

  lemma ConcreteMatchesItself(t: string)
    requires IsConcrete(t)
    ensures Matches(t, t)
  {}

  lemma ToldOne(s: State, c: nat, t: string)
    requires s.subs == map[c := {t}] && IsConcrete(t)
    ensures Told(s, t) == {c} && NowDue(s, t) == {(c, t)}
  {
    ConcreteMatchesItself(t);
    assert t in s.subs[c] && Follows(s, c, t);
  }

  lemma {:induction false} Extend(s: State, acts: seq<Action>, a: Action, exclusive: bool)
    requires CanRun(s, acts, exclusive) && Enabled(Run(s, acts), a, exclusive)
    ensures CanRun(s, acts + [a], exclusive) && Run(s, acts + [a]) == Step(Run(s, acts), a)
    decreases |acts|
  {
    if acts == [] {
      assert Run(Step(s, a), []) == Step(s, a) && ([] + [a])[1..] == [];
    } else {
      Extend(Step(s, acts[0]), acts[1..], a, exclusive);
      assert (acts + [a])[1..] == acts[1..] + [a];
    }
  }

  /** One writer from its write to the moment it holds the tag it read. */
  lemma Approach(s: State, acts: seq<Action>, i: nat, c: nat, t: string, tag: Tag) returns (more: seq<Action>)
    requires CanRun(s, acts, false) && IsConcrete(t)
    requires var n := Run(s, acts);
      n.subs == map[c := {t}] && PhaseOf(n, i).Idle? && (t in n.engine ==> n.engine[t].value != tag.value)
    ensures CanRun(s, more, false)
    ensures var n, m := Run(s, acts), Run(s, more);
      && m.engine == n.engine[t := tag] && m.threads == n.threads[i := InHand(t, {c}, tag)]
      && m.subs == n.subs && m.last == n.last && m.due == n.due + {(c, t)}
  {
    more := Changes(s, acts, i, c, t, tag);
    more := Fetches(s, more, i, c, t, tag);
    var n := Run(s, acts);
    assert n.threads[i := Calling(t)][i := InHand(t, {c}, tag)] == n.threads[i := InHand(t, {c}, tag)];
  }

  /** Its write and its way to the server. */
  lemma Changes(s: State, acts: seq<Action>, i: nat, c: nat, t: string, tag: Tag) returns (more: seq<Action>)
    requires CanRun(s, acts, false) && IsConcrete(t)
    requires var n := Run(s, acts);
      n.subs == map[c := {t}] && PhaseOf(n, i).Idle? && (t in n.engine ==> n.engine[t].value != tag.value)
    ensures CanRun(s, more, false)
    ensures var n := Run(s, acts);
      Run(s, more) == n.(engine := n.engine[t := tag], threads := n.threads[i := Calling(t)], due := n.due + {(c, t)})
  {
    var n := Run(s, acts);
    ToldOne(n, c, t);
    Extend(s, acts, Write(i, t, tag, false), false);
    more := acts + [Write(i, t, tag, false)];
    Extend(s, more, CallBack(i), false);
    more := more + [CallBack(i)];
    assert n.threads[i := Changed(t, false)][i := Calling(t)] == n.threads[i := Calling(t)];
  }

  /** Its way in, and its reading of the tag. */
  lemma Fetches(s: State, acts: seq<Action>, i: nat, c: nat, t: string, tag: Tag) returns (more: seq<Action>)
    requires CanRun(s, acts, false) && IsConcrete(t)
    requires var n := Run(s, acts);
      n.subs == map[c := {t}] && PhaseOf(n, i) == Calling(t) && t in n.engine && n.engine[t] == tag
    ensures CanRun(s, more, false)
    ensures var n, m := Run(s, acts), Run(s, more);
      && m.engine == n.engine && m.threads == n.threads[i := InHand(t, {c}, tag)]
      && m.subs == n.subs && m.last == n.last && m.due == n.due
  {
    var n := Run(s, acts);
    Extend(s, acts, Lock(i), false);
    more := acts + [Lock(i)];
    ToldOne(Run(s, more), c, t);
    assert t != "";
    Extend(s, more, Read(i), false);
    more := more + [Read(i)];
    assert n.threads[i := Inside(t)][i := InHand(t, {c}, tag)] == n.threads[i := InHand(t, {c}, tag)];
  }

  lemma QueuesOne(s: State, acts: seq<Action>, i: nat, c: nat, t: string, tag: Tag)
    requires CanRun(s, acts, false) && PhaseOf(Run(s, acts), i) == InHand(t, {c}, tag)
    ensures CanRun(s, acts + [Queue(i)], false)
    ensures var n, m := Run(s, acts), Run(s, acts + [Queue(i)]);
      && m.engine == n.engine && m.threads == n.threads[i := Idle] && m.due == n.due
      && (c, t) in m.last && m.last[(c, t)] == tag
  {
    Extend(s, acts, Queue(i), false);
    assert c in {c};
  }

  lemma Subscribed(c: nat, t: string) returns (acts: seq<Action>)
    ensures CanRun(START, acts, false) && Run(START, acts) == START.(subs := map[c := {t}])
  {
    acts := [BeginRequest(0)];
    assert ([] + [BeginRequest(0)]) == acts;
    Extend(START, [], BeginRequest(0), false);
    Extend(START, acts, Subscribe(0, c, {t}), false);
    acts := acts + [Subscribe(0, c, {t})];
    assert Run(START, acts).due == {};
    Extend(START, acts, EndRequest(0), false);
    acts := acts + [EndRequest(0)];
  }

  /** Without the mutex two writers of any topic can overtake each other: the second changes, reads
      and queues the tag after the first has read it, the first queues what it had, and the
      subscriber is left with the old value although nobody is still to tell. */
  lemma StaleWithoutMutex(c: nat, t: string, before: Tag, after: Tag) returns (acts: seq<Action>)
    requires IsConcrete(t) && before.value != after.value
    ensures CanRun(START, acts, false)
    ensures var s := Run(START, acts);
      && (forall i <- s.threads :: s.threads[i].Idle?) && (c, t) in s.due
      && t in s.engine && s.engine[t] == after && (c, t) in s.last && s.last[(c, t)] == before
  {
    acts := Subscribed(c, t);
    acts := Approach(START, acts, 1, c, t, before);
    acts := Approach(START, acts, 2, c, t, after);
    QueuesOne(START, acts, 2, c, t, after);
    acts := acts + [Queue(2)];
    QueuesOne(START, acts, 1, c, t, before);
    acts := acts + [Queue(1)];
  }
}
