/** The server's connections: frames in, replies and pushes queued, connections opened and closed. */
module IrspServers {
  import opened Options
  import opened IrspValues
  import opened Irsp1Codec
  import opened SubscriptionIndex
  import opened TopicTries
  import opened Dispatchers
  import opened Facts

  datatype Conn = Conn(session: Session, outbox: seq<string>, rx: string, closeAfterWrite: bool)

  datatype Server = Server(subs: Subs, conns: map<nat, Conn>, nextConnId: nat)

  datatype Event = Event(source: string, category: string, severity: nat, ts: Int64, message: string)

  /** What happens to the server, one library callback or runtime callback at a time.  `routed` are
      the tags whose changes a SET causes while it is being handled. */
  datatype Input =
    | Established
    | Receive(id: nat, chunk: string, last: bool, w: World, routed: seq<TagRecord>)
    | Writeable(id: nat, written: bool)
    | Disconnected(id: nat)
    | TagChanged(name: string, rec: Option<TagRecord>)
    | EventRaised(event: Event)

  const INITIAL := Server(Subs(EMPTY, map[]), map[], 1)

  // ---- Frames pushed ----

  function SeverityName(severity: nat): string {
    if severity == 1 then "warning" else if severity == 2 then "alarm" else if severity == 3 then "critical" else "info"
  }

  function PushTag(rec: TagRecord): Value {
    Map([Field("push", Bulk("tag")), Field("name", Bulk(rec.name)), Field("type", Bulk(rec.tag)),
         Field("ts", Integer(rec.ts)), Field("value", Bulk(rec.value))])
  }

  function PushEvent(e: Event): Value {
    Map([Field("push", Bulk("event")), Field("source", Bulk(e.source)), Field("category", Bulk(e.category)),
         Field("severity", Bulk(SeverityName(e.severity))), Field("ts", Integer(e.ts)),
         Field("message", Bulk(e.message))])
  }

  /** The same frame to each of these that is still connected. */
  function Enqueue(conns: map<nat, Conn>, ids: set<nat>, frame: string): map<nat, Conn> {
    map id | id in conns :: if id in ids then conns[id].(outbox := conns[id].outbox + [frame]) else conns[id]
  }

  function RouteTag(s: Server, name: string, rec: Option<TagRecord>): Server {
    if rec.None? then s
    else s.(conns := Enqueue(s.conns, MatchSet(s.subs.ix, name), Encoding(PushTag(rec.value))))
  }

  function RouteEach(s: Server, recs: seq<TagRecord>): Server {
    if recs == [] then s
    else var r := recs[|recs| - 1]; RouteTag(RouteEach(s, recs[..|recs| - 1]), r.name, Some(r))
  }

  function RouteEvent(s: Server, e: Event): Server {
    s.(conns := Enqueue(s.conns, Listeners(s.subs.events, e.severity, e.category), Encoding(PushEvent(e))))
  }

  // ---- Frames received ----

  predicate Blank(c: char) {
    c == ' ' || c == '\t' || c == '\r' || c == '\n'
  }

  /** The words of an inline command line. */
  function Words(line: string): seq<string> {
    if line == [] then []
    else if Blank(line[0]) then Words(line[1..])
    else
      var k := WordEnd(line);
      [line[..k]] + Words(line[k..])
  }

  function WordEnd(line: string): (k: nat)
    ensures k <= |line| && (line != [] && !Blank(line[0]) ==> k > 0)
    ensures forall i :: 0 <= i < k ==> !Blank(line[i])
    ensures k < |line| ==> Blank(line[k])
  {
    if line == [] || Blank(line[0]) then 0 else 1 + WordEnd(line[1..])
  }

  function SkipBlanks(line: string): (k: nat)
    ensures k <= |line|
  {
    if line != [] && Blank(line[0]) then 1 + SkipBlanks(line[1..]) else 0
  }

  /** The words of a line are its maximal runs of other characters: none is empty or holds a blank,
      and between them nothing but blanks has been dropped. */
  lemma {:induction false} WordsAreMaximal(line: string)
    ensures forall w <- Words(line) :: w != [] && forall c <- w :: !Blank(c)
    ensures Solid(line) == Joined(Words(line))
  {
    if line != [] {
      if Blank(line[0]) {
        WordsAreMaximal(line[1..]);
      } else {
        var k := WordEnd(line);
        WordsAreMaximal(line[k..]);
        SolidSplit(line[..k], line[k..]);
        assert line == line[..k] + line[k..];
        SolidWord(line[..k]);
      }
    }
  }

  function Joined(words: seq<string>): string {
    if words == [] then [] else words[0] + Joined(words[1..])
  }

  /** A line without its blanks. */
  function Solid(line: string): string {
    if line == [] then [] else (if Blank(line[0]) then [] else [line[0]]) + Solid(line[1..])
  }

  lemma {:induction false} SolidSplit(a: string, b: string)
    ensures Solid(a + b) == Solid(a) + Solid(b)
  {
    if a == [] {
      assert a + b == b;
    } else {
      SolidSplit(a[1..], b);
      assert (a + b)[1..] == a[1..] + b && (a + b)[0] == a[0];
      Regroup(if Blank(a[0]) then [] else [a[0]], Solid(a[1..]), Solid(b));
    }
  }

  lemma {:induction false} SolidWord(w: string)
    requires forall c <- w :: !Blank(c)
    ensures Solid(w) == w
  {
    if w != [] {
      assert w[0] in w;
      SolidWord(w[1..]);
    }
  }

  lemma BlankStep(line: string, i: nat)
    requires i < |line|
    ensures Blank(line[i]) ==> Words(line[i..]) == Words(line[i + 1..])
    ensures !Blank(line[i]) ==> WordEnd(line[i..]) == 1 + WordEnd(line[i + 1..])
  {
    assert line[i..][1..] == line[i + 1..];
  }

  lemma WordStep(line: string, start: nat, i: nat)
    requires start < i <= |line| && WordEnd(line[start..]) == i - start
    ensures Words(line[start..]) == [line[start..i]] + Words(line[i..])
  {
    assert line[start..][..i - start] == line[start..i] && line[start..][i - start..] == line[i..];
  }

  method DecodeInline(line: string) returns (words: seq<string>)
    ensures words == Words(line)
  {
    words := [];
    var i := 0;
    while i < |line|
      invariant i <= |line| && words + Words(line[i..]) == Words(line)
    {
      while i < |line| && Blank(line[i])
        invariant i <= |line| && words + Words(line[i..]) == Words(line)
      {
        BlankStep(line, i);
        i := i + 1;
      }
      if i >= |line| {
        break;
      }
      var start := i;
      i := EndOfWord(line, start);
      WordStep(line, start, i);
      words := words + [line[start..i]];
    }
    assert line[i..] == [];
  }

  method EndOfWord(line: string, start: nat) returns (i: nat)
    requires start < |line| && !Blank(line[start])
    ensures start < i <= |line| && WordEnd(line[start..]) == i - start
  {
    i := start;
    while i < |line| && !Blank(line[i])
      invariant start <= i <= |line| && WordEnd(line[start..]) == i - start + WordEnd(line[i..])
    {
      BlankStep(line, i);
      i := i + 1;
    }
  }

  /** What a frame asks for: nothing, something unreadable, or a request. */
  datatype Incoming = Ignored | BadFrame | Request(v: Value)

  function ReadFrame(frame: string): Incoming {
    if frame == [] then Ignored
    else if frame[0] == '*' then
      var d := Decode(frame);
      if d.status == Ok then Request(d.value) else BadFrame
    else
      var words := Words(frame);
      if words == [] then Ignored else Request(Array(Bulks(words)))
  }

  predicate IsBye(request: Value) {
    request.Array? && request.items != [] && request.items[0].Bulk? && Upper(request.items[0].data) == "BYE"
  }

  const BAD_FRAME := Error("PROTOCOL_ERROR", "bad frame")

  function Reply(s: Server, id: nat, frame: string): Server {
    if id !in s.conns then s
    else s.(conns := s.conns[id := s.conns[id].(outbox := s.conns[id].outbox + [frame])])
  }

  function Closing(s: Server, id: nat): Server {
    if id !in s.conns then s else s.(conns := s.conns[id := s.conns[id].(closeAfterWrite := true)])
  }

  /** What follows a request that had this outcome: its effects, the pushes it caused, then its reply, all
      in that order. */
  function Conclude(s: Server, id: nat, r: Outcome, bye: bool, routed: seq<TagRecord>): Server
    requires id in s.conns
  {
    var handled := s.(subs := r.subs, conns := s.conns[id := s.conns[id].(session := r.session)]);
    var replied := Reply(RouteEach(handled, if r.wrote then routed else []), id, Encoding(r.reply));
    if bye then Closing(replied, id) else replied
  }

  function Answered(s: Server, id: nat, request: Value, w: World, routed: seq<TagRecord>): Server
    requires id in s.conns
  {
    Conclude(s, id, Respond(w, s.subs, s.conns[id].session, request), IsBye(request), routed)
  }

  function ProcessFrame(s: Server, id: nat, frame: string, w: World, routed: seq<TagRecord>): Server
    requires id in s.conns
  {
    match ReadFrame(frame)
    case Ignored => s
    case BadFrame => Closing(Reply(s, id, Encoding(BAD_FRAME)), id)
    case Request(v) => Answered(s, id, v, w, routed)
  }

  function Step(s: Server, a: Input): Server {
    match a
    case Established =>
      Server(s.subs, s.conns[s.nextConnId := Conn(Session(s.nextConnId, false), [], [], false)], s.nextConnId + 1)
    case Receive(id, chunk, last, w, routed) =>
      if id !in s.conns then s
      else
        var rx := s.conns[id].rx + chunk;
        var held := s.(conns := s.conns[id := s.conns[id].(rx := if last then [] else rx)]);
        if last then ProcessFrame(held, id, rx, w, routed) else held
    case Writeable(id, _) =>
      if id !in s.conns || s.conns[id].outbox == [] then s
      else s.(conns := s.conns[id := s.conns[id].(outbox := s.conns[id].outbox[1..])])
    case Disconnected(id) => Server(Closed(s.subs, id), s.conns - {id}, s.nextConnId)
    case TagChanged(name, rec) => RouteTag(s, name, rec)
    case EventRaised(e) => RouteEvent(s, e)
  }

  /** Does the server end the connection when it may write?  Not before the last queued frame has gone, unless
      writing fails. */
  predicate Ends(s: Server, id: nat, written: bool) {
    && id in s.conns
    && if s.conns[id].outbox == [] then s.conns[id].closeAfterWrite
       else !written || (|s.conns[id].outbox| == 1 && s.conns[id].closeAfterWrite)
  }

  function Run(inputs: seq<Input>): Server {
    if inputs == [] then INITIAL else Step(Run(inputs[..|inputs| - 1]), inputs[|inputs| - 1])
  }

  // ---- Every id in use belongs to a live connection ----

  ghost predicate Live(s: Server) {
    && s.nextConnId >= 1 && Sound(s.subs.ix)
    && (forall e <- s.subs.ix.entries :: e.1 in s.conns)
    && (forall id <- s.subs.events :: id in s.conns)
    && (forall id <- s.conns :: 1 <= id < s.nextConnId && s.conns[id].session.id == id)
    && (forall id <- s.subs.ix.patterns :: id < s.nextConnId)
  }

  /** Queuing frames changes nothing else. */
  ghost predicate OnlyQueues(a: Server, b: Server) {
    && b.subs == a.subs && b.nextConnId == a.nextConnId && b.conns.Keys == a.conns.Keys
    && forall id <- a.conns :: b.conns[id].session == a.conns[id].session
  }

  lemma QueuesLive(a: Server, b: Server)
    requires Live(a) && OnlyQueues(a, b)
    ensures Live(b)
  {}

  lemma AnswerOnlyQueues(s: Server, id: nat, pushed: seq<TagRecord>, frame: string, closing: bool)
    ensures var replied := Reply(RouteEach(s, pushed), id, frame);
      OnlyQueues(s, if closing then Closing(replied, id) else replied)
  {
    RouteEachOnlyQueues(s, pushed);
  }

  lemma {:induction false} RouteEachOnlyQueues(s: Server, recs: seq<TagRecord>)
    ensures OnlyQueues(s, RouteEach(s, recs))
  {
    if recs != [] {
      RouteEachOnlyQueues(s, recs[..|recs| - 1]);
    }
  }

  lemma OwnChangeLive(s: Server, id: nat, subs: Subs, session: Session)
    requires Live(s) && id in s.conns && OwnChange(s.subs, subs, id) && session.id == id
    ensures Live(s.(subs := subs, conns := s.conns[id := s.conns[id].(session := session)]))
  {
    forall e | e in subs.ix.entries
      ensures e.1 in s.conns
    {
      assert e.1 != id ==> e in s.subs.ix.entries;
    }
    forall other | other in subs.events
      ensures other in s.conns
    {
      assert other != id ==> other in subs.events - {id};
    }
    forall other | other in subs.ix.patterns
      ensures other < s.nextConnId
    {
      assert other != id ==> Pats(s.subs.ix, other) == Pats(subs.ix, other) != {};
    }
  }

  lemma ConcludeLive(s: Server, id: nat, r: Outcome, bye: bool, routed: seq<TagRecord>)
    requires Live(s) && id in s.conns && OwnChange(s.subs, r.subs, id) && r.session.id == id
    ensures var n := Conclude(s, id, r, bye, routed); Live(n) && n.conns.Keys == s.conns.Keys && n.nextConnId == s.nextConnId
  {
    OwnChangeLive(s, id, r.subs, r.session);
    var handled := s.(subs := r.subs, conns := s.conns[id := s.conns[id].(session := r.session)]);
    AnswerOnlyQueues(handled, id, if r.wrote then routed else [], Encoding(r.reply), bye);
    QueuesLive(handled, Conclude(s, id, r, bye, routed));
  }

  lemma ProcessLive(s: Server, id: nat, frame: string, w: World, routed: seq<TagRecord>)
    requires Live(s) && id in s.conns
    ensures var n := ProcessFrame(s, id, frame, w, routed); Live(n) && n.conns.Keys == s.conns.Keys && n.nextConnId == s.nextConnId
  {
    var incoming := ReadFrame(frame);
    if incoming.Request? {
      var r := Respond(w, s.subs, s.conns[id].session, incoming.v);
      OnlyOwnSubscriptions(w, s.subs, s.conns[id].session, incoming.v);
      HelloFirst(w, s.subs, s.conns[id].session, incoming.v);
      ConcludeLive(s, id, r, IsBye(incoming.v), routed);
    }
  }

  lemma ClosedIsOwn(subs: Subs, id: nat)
    requires Sound(subs.ix)
    ensures OwnChange(subs, Closed(subs, id), id)
  {
    ApplySound(subs.ix, UnsubAll(id));
  }

  lemma DisconnectedLive(s: Server, id: nat)
    requires Live(s)
    ensures Live(Step(s, Disconnected(id)))
  {
    var r := UnsubscribeAll(s.subs.ix, id);
    ClosedIsOwn(s.subs, id);
    forall other | other in r.patterns
      ensures other < s.nextConnId
    {
      assert other != id ==> Pats(s.subs.ix, other) == Pats(r, other) != {};
    }
    forall e | e in r.entries
      ensures e.1 in s.conns && e.1 != id
    {
      assert e in s.subs.ix.entries && e.0 in Pats(s.subs.ix, e.1);
    }
  }

  lemma StepLive(s: Server, a: Input)
    requires Live(s)
    ensures Live(Step(s, a))
    ensures forall id: nat :: 1 <= id < s.nextConnId && id !in s.conns ==> id !in Step(s, a).conns
    ensures Step(s, a).nextConnId >= s.nextConnId
  {
    match a
    case Receive(id, chunk, last, w, routed) =>
      if id in s.conns {
        var rx := s.conns[id].rx + chunk;
        var held := s.(conns := s.conns[id := s.conns[id].(rx := if last then [] else rx)]);
        if last {
          ProcessLive(held, id, rx, w, routed);
        }
      }
    case Disconnected(id) => DisconnectedLive(s, id);
    case _ =>
  }

  lemma {:induction false} RunLive(inputs: seq<Input>)
    ensures Live(Run(inputs))
  {
    if inputs != [] {
      RunLive(inputs[..|inputs| - 1]);
      StepLive(Run(inputs[..|inputs| - 1]), inputs[|inputs| - 1]);
    }
  }

  lemma {:induction false} ClosedConn(before: seq<Input>, id: nat, after: seq<Input>)
    requires id in Run(before).conns
    ensures var s := Run(before + [Disconnected(id)] + after); 1 <= id < s.nextConnId && id !in s.conns
    decreases |after|
  {
    var inputs := before + [Disconnected(id)] + after;
    if after == [] {
      RunLive(before);
      assert inputs[..|inputs| - 1] == before && inputs[|inputs| - 1] == Disconnected(id);
    } else {
      var shorter := after[..|after| - 1];
      ClosedConn(before, id, shorter);
      assert inputs[..|inputs| - 1] == before + [Disconnected(id)] + shorter;
      RunLive(inputs[..|inputs| - 1]);
      StepLive(Run(inputs[..|inputs| - 1]), inputs[|inputs| - 1]);
    }
  }

  /** Once a connection is closed, its id is never a connection again and no later tag or event is
      ever routed to it, whatever it and the others had sent. */
  lemma ClosedForever(before: seq<Input>, id: nat, after: seq<Input>, topic: string, e: Event)
    requires id in Run(before).conns
    ensures var s := Run(before + [Disconnected(id)] + after);
      && id < s.nextConnId && id !in s.conns
      && id !in MatchSet(s.subs.ix, topic) && id !in Listeners(s.subs.events, e.severity, e.category)
  {
    var inputs := before + [Disconnected(id)] + after;
    ClosedConn(before, id, after);
    RunLive(inputs);
    NotMatched(Run(inputs), id, topic);
  }

  lemma NotMatched(s: Server, id: nat, topic: string)
    requires Live(s) && id !in s.conns
    ensures id !in MatchSet(s.subs.ix, topic)
  {}

  // ---- The server itself ----

  function Listed(ids: seq<nat>): set<nat> {
    set id | id in ids
  }

  lemma ListedIs(ids: seq<nat>, found: set<nat>)
    requires forall id: nat :: id in ids <==> id in found
    ensures Listed(ids) == found
  {}

  lemma NobodyToTell(conns: map<nat, Conn>, ids: seq<nat>)
    ensures ids == [] ==> forall frame :: Enqueue(conns, Listed(ids), frame) == conns
  {}

  lemma EnqueueOne(conns: map<nat, Conn>, ids: seq<nat>, i: nat, frame: string)
    requires i < |ids| && Ascending(ids)
    ensures var done := Enqueue(conns, Listed(ids[..i]), frame);
      Enqueue(conns, Listed(ids[..i + 1]), frame) ==
      if ids[i] in done then done[ids[i] := done[ids[i]].(outbox := done[ids[i]].outbox + [frame])] else done
  {
    assert ids[..i + 1] == ids[..i] + [ids[i]];
    assert ids[i] !in ids[..i];
    forall id
      ensures id in Listed(ids[..i + 1]) <==> id in Listed(ids[..i]) || id == ids[i]
    {}
  }

  class IrspServer {
    const dispatcher: Dispatcher
    var conns: map<nat, Conn>
    var nextConnId: nat

    ghost predicate Valid()
      reads this, dispatcher, dispatcher.tagSubs, dispatcher.tagSubs.nodeAt.Values
    {
      dispatcher.Valid()
    }

    ghost function View(): Server
      reads this, dispatcher, dispatcher.tagSubs
    {
      Server(dispatcher.View(), conns, nextConnId)
    }

    constructor ()
      ensures Valid() && View() == INITIAL
    {
      dispatcher := new Dispatcher();
      conns, nextConnId := map[], 1;
    }

    method OnEstablished() returns (id: nat)
      requires Valid()
      modifies this
      ensures Valid() && View() == Step(old(View()), Established) && id == old(nextConnId)
    {
      id := nextConnId;
      nextConnId := nextConnId + 1;
      conns := conns[id := Conn(Session(id, false), [], [], false)];
    }

    /** Queues one frame for every listed connection that is still there. */
    method EnqueueFor(ids: seq<nat>, frame: string)
      requires Ascending(ids)
      modifies this`conns
      ensures conns == Enqueue(old(conns), Listed(ids), frame)
    {
      var i := 0;
      while i < |ids|
        invariant i <= |ids| && conns == Enqueue(old(conns), Listed(ids[..i]), frame)
      {
        EnqueueOne(old(conns), ids, i, frame);
        var id := ids[i];
        if id in conns {
          conns := conns[id := conns[id].(outbox := conns[id].outbox + [frame])];
        }
        i := i + 1;
      }
      assert ids[..i] == ids;
    }

    method OnTagChanged(name: string, rec: Option<TagRecord>)
      requires Valid()
      modifies this`conns
      ensures Valid() && View() == Step(old(View()), TagChanged(name, rec))
    {
      var ids := dispatcher.tagSubs.Match(name);
      if ids == [] || rec.None? {
        ListedIs(ids, MatchSet(dispatcher.View().ix, name));
        NobodyToTell(conns, ids);
        return;
      }
      var frame := Encode(PushTag(rec.value), []);
      assert frame == Encoding(PushTag(rec.value));
      ListedIs(ids, MatchSet(dispatcher.View().ix, name));
      EnqueueFor(ids, frame);
    }

    method OnEvent(e: Event)
      requires Valid()
      modifies this`conns
      ensures Valid() && View() == Step(old(View()), EventRaised(e))
    {
      var ids := dispatcher.EventSubscribers(e.severity, e.category);
      if ids == [] {
        ListedIs(ids, Listeners(dispatcher.eventSubs, e.severity, e.category));
        NobodyToTell(conns, ids);
        return;
      }
      var frame := Encode(PushEvent(e), []);
      assert frame == Encoding(PushEvent(e));
      ListedIs(ids, Listeners(dispatcher.eventSubs, e.severity, e.category));
      EnqueueFor(ids, frame);
    }

    /** The changes a SET causes come back while it is being handled. */
    method Reenter(routed: seq<TagRecord>)
      requires Valid()
      modifies this`conns
      ensures Valid() && View() == RouteEach(old(View()), routed)
    {
      var i := 0;
      while i < |routed|
        invariant i <= |routed| && Valid() && View() == RouteEach(old(View()), routed[..i])
      {
        OnTagChanged(routed[i].name, Some(routed[i]));
        assert routed[..i + 1][..i] == routed[..i];
        i := i + 1;
      }
      assert routed[..i] == routed;
    }

    method QueueReply(id: nat, reply: Value)
      modifies this`conns
      ensures View() == Reply(old(View()), id, Encoding(reply))
    {
      var frame := Encode(reply, []);
      assert frame == Encoding(reply);
      if id in conns {
        conns := conns[id := conns[id].(outbox := conns[id].outbox + [frame])];
      }
    }

    method CloseAfterWrite(id: nat)
      modifies this`conns
      ensures View() == Closing(old(View()), id)
    {
      if id in conns {
        conns := conns[id := conns[id].(closeAfterWrite := true)];
      }
    }

    method HandleFor(id: nat, request: Value, w: World) returns (reply: Value, wrote: bool)
      requires Valid() && id in conns
      modifies this`conns, dispatcher, dispatcher.tagSubs, dispatcher.tagSubs.nodeAt.Values
      ensures Valid() && fresh(dispatcher.tagSubs.nodeAt.Values - old(dispatcher.tagSubs.nodeAt.Values))
      ensures var r := Respond(w, old(View()).subs, old(conns)[id].session, request);
        && reply == r.reply && wrote == r.wrote
        && View() == old(View()).(subs := r.subs, conns := old(conns)[id := old(conns)[id].(session := r.session)])
    {
      var session;
      session, reply, wrote := dispatcher.Handle(w, conns[id].session, request);
      conns := conns[id := conns[id].(session := session)];
    }

    method OnRequest(id: nat, request: Value, w: World, routed: seq<TagRecord>)
      requires Valid() && id in conns
      modifies this`conns, dispatcher, dispatcher.tagSubs, dispatcher.tagSubs.nodeAt.Values
      ensures Valid() && fresh(dispatcher.tagSubs.nodeAt.Values - old(dispatcher.tagSubs.nodeAt.Values))
      ensures View() == Answered(old(View()), id, request, w, routed)
    {
      var reply, wrote := HandleFor(id, request, w);
      if wrote {
        Reenter(routed);
      }
      Finish(id, reply, IsBye(request));
    }

    method Finish(id: nat, reply: Value, bye: bool)
      modifies this`conns
      ensures var replied := Reply(old(View()), id, Encoding(reply)); View() == if bye then Closing(replied, id) else replied
    {
      QueueReply(id, reply);
      if bye {
        CloseAfterWrite(id);
      }
    }

    method OnFrame(id: nat, frame: string, w: World, routed: seq<TagRecord>)
      requires Valid() && id in conns
      modifies this`conns, dispatcher, dispatcher.tagSubs, dispatcher.tagSubs.nodeAt.Values
      ensures Valid() && fresh(dispatcher.tagSubs.nodeAt.Values - old(dispatcher.tagSubs.nodeAt.Values))
      ensures View() == ProcessFrame(old(View()), id, frame, w, routed)
    {
      if frame == [] {
        return;
      }
      var request;
      if frame[0] == '*' {
        var d := ParseValue(frame, 0);
        if d.status != Ok {
          QueueReply(id, BAD_FRAME);
          CloseAfterWrite(id);
          return;
        }
        request := d.value;
      } else {
        var words := DecodeInline(frame);
        if words == [] {
          return;
        }
        request := Array(Bulks(words));
      }
      OnRequest(id, request, w, routed);
    }

    /** Fragments are collected until the last one completes a frame. */
    method OnReceive(id: nat, chunk: string, last: bool, w: World, routed: seq<TagRecord>)
      requires Valid()
      modifies this`conns, dispatcher, dispatcher.tagSubs, dispatcher.tagSubs.nodeAt.Values
      ensures Valid() && fresh(dispatcher.tagSubs.nodeAt.Values - old(dispatcher.tagSubs.nodeAt.Values))
      ensures View() == Step(old(View()), Receive(id, chunk, last, w, routed))
    {
      if id !in conns {
        return;
      }
      var rx := conns[id].rx + chunk;
      conns := conns[id := conns[id].(rx := if last then [] else rx)];
      if last {
        OnFrame(id, rx, w, routed);
      }
    }

    /** Sends one queued frame; the connection is closed when nothing is left and it was to be closed
        after writing, or when writing failed. */
    method OnWriteable(id: nat, written: bool) returns (sent: Option<string>, close: bool)
      requires Valid()
      modifies this`conns
      ensures Valid() && View() == Step(old(View()), Writeable(id, written))
      ensures sent == if id in old(conns) && old(conns)[id].outbox != [] then Some(old(conns)[id].outbox[0]) else None
      ensures close <==> Ends(old(View()), id, written)
    {
      if id !in conns {
        return None, false;
      }
      var conn := conns[id];
      if conn.outbox == [] {
        return None, conn.closeAfterWrite;
      }
      sent := Some(conn.outbox[0]);
      conns := conns[id := conn.(outbox := conn.outbox[1..])];
      if !written {
        return sent, true;
      }
      close := conns[id].outbox == [] && conn.closeAfterWrite;
    }

    method OnDisconnected(id: nat)
      requires Valid()
      modifies this`conns, dispatcher, dispatcher.tagSubs, dispatcher.tagSubs.nodeAt.Values
      ensures Valid() && dispatcher.tagSubs.nodeAt == old(dispatcher.tagSubs.nodeAt)
      ensures View() == Step(old(View()), Disconnected(id))
    {
      dispatcher.OnSessionClosed(id);
      conns := conns - {id};
    }
  }
}
