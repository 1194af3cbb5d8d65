/** One client connected to the server: requests and replies carry no ids, so the client matches
    them by order alone, while pushes arrive in between. */
module ReplyMatching {
  import opened Options
  import opened Facts
  import opened IrspValues
  import opened Irsp1Codec
  import opened Irsp1RoundTrip
  import opened SubscriptionIndex
  import opened Dispatchers
  import opened IrspServers
  import opened ReplyFrames

  // ---- The client ----

  /** How a request ended: with a reply, rejected with an error reply, or with the connection. */
  datatype Result = Resolved(v: Value) | Rejected(code: string, message: string) | Lost

  /** `pending` are the numbers of the requests still waiting, oldest first. */
  datatype Client = Client(open: bool, sent: nat, pending: seq<nat>, results: seq<(nat, Result)>, pushes: seq<Value>)

  const FRESH := Client(true, 0, [], [], [])

  function RequestFrame(parts: seq<string>): string {
    Encoding(Array(Bulks(parts)))
  }

  function ResultOf(v: Value): Result {
    if v.Error? then Rejected(v.code, v.message) else Resolved(v)
  }

  /** A request is sent and waits for its reply, unless the connection is not open. */
  function ClientSend(c: Client): Client {
    if c.open then c.(sent := c.sent + 1, pending := c.pending + [c.sent]) else c
  }

  /** An unreadable frame is reported and skipped, a push is delivered, and anything else answers
      the oldest request that waits, if there is one. */
  function ClientFrame(c: Client, frame: string): Client {
    var d := Decode(frame);
    if d.status != Ok then c
    else if IsPush(d.value) then c.(pushes := c.pushes + [d.value])
    else if c.pending == [] then c
    else c.(pending := c.pending[1..], results := c.results + [(c.pending[0], ResultOf(d.value))])
  }

  function LostAll(pending: seq<nat>): seq<(nat, Result)> {
    seq(|pending|, i requires 0 <= i < |pending| => (pending[i], Lost))
  }

  function ClientClose(c: Client): Client {
    c.(open := false, pending := [], results := c.results + LostAll(c.pending))
  }

  class IrspClient {
    var open: bool
    var sent: nat
    var pending: seq<nat>
    var results: seq<(nat, Result)>
    var pushes: seq<Value>

    function View(): Client
      reads this
    {
      Client(open, sent, pending, results, pushes)
    }

    /** The socket has just opened. */
    constructor ()
      ensures View() == FRESH
    {
      open, sent, pending, results, pushes := true, 0, [], [], [];
    }

    /** The frame to send; none, and the request is rejected at once, when the connection is not open. */
    method Send(parts: seq<string>) returns (frame: Option<string>)
      modifies this
      ensures View() == ClientSend(old(View()))
      ensures frame == if old(open) then Some(RequestFrame(parts)) else None
    {
      if !open {
        return None;
      }
      pending := pending + [sent];
      sent := sent + 1;
      var bytes := Encode(Array(Bulks(parts)), []);
      assert bytes == RequestFrame(parts);
      return Some(bytes);
    }

    method OnFrame(frame: string)
      modifies this
      ensures View() == ClientFrame(old(View()), frame)
    {
      var d := ParseValue(frame, 0);
      if d.status != Ok {
        return;
      }
      if IsPush(d.value) {
        pushes := pushes + [d.value];
        return;
      }
      if pending == [] {
        return;
      }
      var p := pending[0];
      pending := pending[1..];
      if d.value.Error? {
        results := results + [(p, Rejected(d.value.code, d.value.message))];
      } else {
        results := results + [(p, Resolved(d.value))];
      }
    }

    method OnClose()
      modifies this
      ensures View() == ClientClose(old(View()))
    {
      open := false;
      ghost var all := pending;
      assert all[|all| - |pending|..] == pending;
      while pending != []
        invariant !open && sent == old(sent) && pushes == old(pushes)
        invariant |pending| <= |all| && pending == all[|all| - |pending|..]
        invariant results == old(results) + LostAll(all)[..|all| - |pending|]
        decreases |pending|
      {
        var p := pending[0];
        assert LostAll(all)[|all| - |pending|] == (p, Lost);
        pending := pending[1..];
        results := results + [(p, Lost)];
      }
      assert LostAll(all)[..|all|] == LostAll(all);
    }
  }

  // ---- The frames of a queue ----

  /** Those the client will take for replies. */
  function Replies(q: seq<string>): seq<string> {
    if q == [] then [] else (if IsReplyFrame(q[0]) then [q[0]] else []) + Replies(q[1..])
  }

  function PushOf(frame: string): seq<Value> {
    var d := Decode(frame); if d.status == Ok && IsPush(d.value) then [d.value] else []
  }

  /** What it will deliver as pushes. */
  function Pushes(q: seq<string>): seq<Value> {
    if q == [] then [] else PushOf(q[0]) + Pushes(q[1..])
  }

  lemma {:induction false} QueueAppend(a: seq<string>, b: seq<string>)
    ensures Replies(a + b) == Replies(a) + Replies(b) && Pushes(a + b) == Pushes(a) + Pushes(b)
  {
    if a == [] {
      assert a + b == b;
    } else {
      QueueAppend(a[1..], b);
      assert (a + b)[1..] == a[1..] + b && (a + b)[0] == a[0];
      Regroup(if IsReplyFrame(a[0]) then [a[0]] else [], Replies(a[1..]), Replies(b));
      Regroup(PushOf(a[0]), Pushes(a[1..]), Pushes(b));
    }
  }

  lemma OneFrame(frame: string)
    ensures Replies([frame]) == (if IsReplyFrame(frame) then [frame] else []) && Pushes([frame]) == PushOf(frame)
  {
    assert Replies([]) == [] && Pushes([]) == [];
  }

  /** One connection's queue gains these replies and these pushes, and nothing else of it changes. */
  ghost predicate Gains(a: Conn, b: Conn, replies: seq<string>, pushes: seq<Value>) {
    && b.rx == a.rx && b.session == a.session
    && Replies(b.outbox) == Replies(a.outbox) + replies && Pushes(b.outbox) == Pushes(a.outbox) + pushes
  }

  lemma GainsPush(a: Conn, v: Value)
    requires !IsReplyFrame(Encoding(v)) && PushOf(Encoding(v)) == [v]
    ensures Gains(a, a.(outbox := a.outbox + [Encoding(v)]), [], [v])
  {
    QueueAppend(a.outbox, [Encoding(v)]);
    OneFrame(Encoding(v));
  }

  lemma GainsReply(a: Conn, frame: string)
    requires IsReplyFrame(frame)
    ensures Gains(a, a.(outbox := a.outbox + [frame]), [frame], [])
  {
    QueueAppend(a.outbox, [frame]);
    OneFrame(frame);
  }

  lemma GainsThen(a: Conn, b: Conn, c: Conn, r1: seq<string>, p1: seq<Value>, r2: seq<string>, p2: seq<Value>)
    requires Gains(a, b, r1, p1) && Gains(b, c, r2, p2)
    ensures Gains(a, c, r1 + r2, p1 + p2)
  {
    Regroup(Replies(a.outbox), r1, r2);
    Regroup(Pushes(a.outbox), p1, p2);
  }

  lemma GainsNothing(a: Conn)
    ensures Gains(a, a, [], [])
  {}

  // ---- What one connection is told ----

  ghost predicate Fits(recs: seq<TagRecord>) {
    forall rec <- recs :: Representable(PushTag(rec))
  }

  /** The pushes some changed tags cause for one session. */
  function TagPushes(ix: Index, recs: seq<TagRecord>, id: nat): seq<Value> {
    if recs == [] then []
    else
      var r := recs[|recs| - 1];
      TagPushes(ix, recs[..|recs| - 1], id) + if id in MatchSet(ix, r.name) then [PushTag(r)] else []
  }

  /** The pushes one input of the server causes for one session. */
  function DuePushes(s: Server, a: Input, id: nat): seq<Value> {
    match a
    case TagChanged(name, rec) => if rec.Some? && id in MatchSet(s.subs.ix, name) then [PushTag(rec.value)] else []
    case EventRaised(e) => if id in Listeners(s.subs.events, e.severity, e.category) then [PushEvent(e)] else []
    case Receive(other, chunk, last, w, routed) =>
      if other !in s.conns || !last then []
      else match ReadFrame(s.conns[other].rx + chunk) {
        case Request(v) =>
          var r := Respond(w, s.subs, s.conns[other].session, v);
          if r.wrote then TagPushes(r.subs.ix, routed, id) else []
        case _ => []
      }
    case _ => []
  }

  lemma PushIsTold(s: Server, ids: set<nat>, v: Value, id: nat)
    requires id in s.conns && !IsReplyFrame(Encoding(v)) && PushOf(Encoding(v)) == [v]
    ensures Gains(s.conns[id], Enqueue(s.conns, ids, Encoding(v))[id], [], if id in ids then [v] else [])
  {
    if id in ids {
      GainsPush(s.conns[id], v);
    } else {
      GainsNothing(s.conns[id]);
    }
  }

  lemma RouteTagTold(s: Server, name: string, rec: TagRecord, id: nat)
    requires id in s.conns && Representable(PushTag(rec))
    ensures Gains(s.conns[id], RouteTag(s, name, Some(rec)).conns[id], [],
                  if id in MatchSet(s.subs.ix, name) then [PushTag(rec)] else [])
  {
    PushReads(PushTag(rec));
    PushIsTold(s, MatchSet(s.subs.ix, name), PushTag(rec), id);
  }

  lemma {:induction false} RouteEachTold(s: Server, recs: seq<TagRecord>, id: nat)
    requires id in s.conns && Fits(recs)
    ensures id in RouteEach(s, recs).conns && RouteEach(s, recs).subs == s.subs
    ensures Gains(s.conns[id], RouteEach(s, recs).conns[id], [], TagPushes(s.subs.ix, recs, id))
  {
    if recs == [] {
      GainsNothing(s.conns[id]);
    } else {
      var r, rest := recs[|recs| - 1], recs[..|recs| - 1];
      var mid := RouteEach(s, rest);
      RouteEachTold(s, rest, id);
      RouteTagTold(mid, r.name, r, id);
      GainsThen(s.conns[id], mid.conns[id], RouteTag(mid, r.name, Some(r)).conns[id], [], TagPushes(s.subs.ix, rest, id),
                [], if id in MatchSet(s.subs.ix, r.name) then [PushTag(r)] else []);
    }
  }

  // ---- Requests ----

  /** Another connection's request, once its outcome is known. */
  lemma ConcludeElsewhere(s: Server, other: nat, r: Outcome, bye: bool, routed: seq<TagRecord>, id: nat)
    requires other in s.conns && id in s.conns && other != id && Fits(routed)
    ensures var n := Conclude(s, other, r, bye, routed);
      && id in n.conns && n.subs == r.subs && n.nextConnId == s.nextConnId
      && Gains(s.conns[id], n.conns[id], [], if r.wrote then TagPushes(r.subs.ix, routed, id) else [])
  {
    var handled := s.(subs := r.subs, conns := s.conns[other := s.conns[other].(session := r.session)]);
    RouteEachTold(handled, if r.wrote then routed else [], id);
    RouteEachOnlyQueues(handled, if r.wrote then routed else []);
  }

  /** This connection's request: its pushes, and then exactly one reply. */
  lemma ConcludeHere(s: Server, id: nat, r: Outcome, bye: bool, routed: seq<TagRecord>)
    requires id in s.conns && Fits(routed) && IsReplyFrame(Encoding(r.reply))
    ensures var n := Conclude(s, id, r, bye, routed);
      && id in n.conns && n.subs == r.subs && n.nextConnId == s.nextConnId
      && Gains(s.conns[id].(session := r.session), n.conns[id], [Encoding(r.reply)],
               if r.wrote then TagPushes(r.subs.ix, routed, id) else [])
  {
    var recs := if r.wrote then routed else [];
    var handled := s.(subs := r.subs, conns := s.conns[id := s.conns[id].(session := r.session)]);
    var routedS := RouteEach(handled, recs);
    RouteEachTold(handled, recs, id);
    RouteEachOnlyQueues(handled, recs);
    GainsReply(routedS.conns[id], Encoding(r.reply));
    var told := TagPushes(r.subs.ix, recs, id);
    GainsThen(handled.conns[id], routedS.conns[id], routedS.conns[id].(outbox := routedS.conns[id].outbox + [Encoding(r.reply)]),
              [], told, [Encoding(r.reply)], []);
    assert told + [] == told && [] + [Encoding(r.reply)] == [Encoding(r.reply)];
  }

  /** The server reads a request frame as that request. */
  lemma RequestReads(parts: seq<string>)
    requires Representable(Array(Bulks(parts)))
    ensures ReadFrame(RequestFrame(parts)) == Request(Array(Bulks(parts)))
  {
    BulksEncodable(Bulks(parts));
    DecodesBack(Array(Bulks(parts)));
  }

  /** A complete request of this connection has the outcome of its command, queues the pushes that causes,
      and then exactly one reply. */
  lemma OwnRequest(s: Server, id: nat, parts: seq<string>, w: World, routed: seq<TagRecord>, r: Outcome)
    requires id in s.conns && Fits(routed) && Representable(Array(Bulks(parts)))
    requires r == Respond(w, s.subs, s.conns[id].session, Array(Bulks(parts))) && Representable(r.reply)
    ensures var n := ProcessFrame(s, id, RequestFrame(parts), w, routed);
      && id in n.conns && n.subs == r.subs && n.nextConnId == s.nextConnId
      && Gains(s.conns[id].(session := r.session), n.conns[id], [Encoding(r.reply)],
               if r.wrote then TagPushes(r.subs.ix, routed, id) else [])
  {
    RequestReads(parts);
    ReplyReads(w, s.subs, s.conns[id].session, Array(Bulks(parts)));
    ConcludeHere(s, id, r, IsBye(Array(Bulks(parts))), routed);
  }

  // ---- Client, server and the connection between them ----

  /** One request as the server handled it: what it saw of the runtime then, and what was asked. */
  datatype Turn = Turn(w: World, parts: seq<string>)

  /** Connection `id` of `server` is the client's; `c2s` and `s2c` are the messages in transit, the
      first of `c2s` possibly delivered in part.  `requests`, `turns` and `pushed` record what was asked,
      what of it has been handled, and what pushes were due to the client, in order. */
  datatype Net = Net(server: Server, id: nat, client: Client, c2s: seq<string>, s2c: seq<string>,
                     requests: seq<seq<string>>, turns: seq<Turn>, pushed: seq<Value>)

  datatype Action =
    | Send(parts: seq<string>)
    | Deliver(k: nat, w: World, routed: seq<TagRecord>)  // the next `k` bytes of the first message
    | Transmit                                           // one queued frame leaves the server
    | Arrive                                             // one frame reaches the client
    | Elsewhere(a: Input)                                // tags, events and other connections
    | Drop                                               // the connection is lost

  /** Inputs of the server that do not come from this connection. */
  ghost predicate Foreign(a: Input, id: nat) {
    match a
    case Established => true
    case Receive(other, _, _, _, routed) => other != id && Fits(routed)
    case Writeable(other, _) => other != id
    case Disconnected(other) => other != id
    case TagChanged(_, rec) => rec.Some? ==> Representable(PushTag(rec.value))
    case EventRaised(e) => Representable(PushEvent(e))
  }

  /** The request the next complete message holds. */
  function Asked(n: Net): seq<string> {
    if |n.turns| < |n.requests| then n.requests[|n.turns|] else []
  }

  /** What the server will make of it. */
  function Handled(n: Net, w: World): Outcome
    requires n.id in n.server.conns
  {
    Respond(w, n.server.subs, n.server.conns[n.id].session, Array(Bulks(Asked(n))))
  }

  ghost predicate Enabled(n: Net, a: Action) {
    match a
    case Send(parts) => Representable(Array(Bulks(parts)))
    case Deliver(k, w, routed) =>
      && n.client.open && n.c2s != [] && k <= |n.c2s[0]| && Fits(routed)
      && n.id in n.server.conns && Representable(Handled(n, w).reply)
    case Transmit => n.client.open && n.id in n.server.conns && n.server.conns[n.id].outbox != []
    case Arrive => n.client.open && n.s2c != []
    case Elsewhere(b) => Foreign(b, n.id)
    case Drop => n.client.open
  }

  /** The server takes one input. */
  function Feed(n: Net, a: Input): Net {
    n.(server := Step(n.server, a), pushed := n.pushed + if n.client.open then DuePushes(n.server, a, n.id) else [])
  }

  function NetStep(n: Net, a: Action): Net {
    match a
    case Send(parts) =>
      if n.client.open then
        n.(client := ClientSend(n.client), c2s := n.c2s + [RequestFrame(parts)], requests := n.requests + [parts])
      else n.(client := ClientSend(n.client))
    case Deliver(k, w, routed) =>
      if n.c2s == [] || k > |n.c2s[0]| then n
      else
        var head, last := n.c2s[0], k == |n.c2s[0]|;
        Feed(n, Receive(n.id, head[..k], last, w, routed)).(
          c2s := if last then n.c2s[1..] else [head[k..]] + n.c2s[1..],
          turns := if last then n.turns + [Turn(w, Asked(n))] else n.turns)
    case Transmit =>
      if n.id !in n.server.conns || n.server.conns[n.id].outbox == [] then n
      else n.(server := Step(n.server, Writeable(n.id, true)), s2c := n.s2c + [n.server.conns[n.id].outbox[0]])
    case Arrive =>
      if n.s2c == [] then n else n.(client := ClientFrame(n.client, n.s2c[0]), s2c := n.s2c[1..])
    case Elsewhere(b) => Feed(n, b)
    case Drop => n.(server := Step(n.server, Disconnected(n.id)), client := ClientClose(n.client), c2s := [], s2c := [])
  }

  // ---- A server of one's own ----

  const NOBODY := Subs(EMPTY, map[])

  /** What the turns so far would have made of a server that had this client alone. */
  function Alone(id: nat, turns: seq<Turn>): (Subs, Session)
    decreases |turns|, 0
  {
    if turns == [] then (NOBODY, Session(id, false))
    else
      var r := AloneTurn(id, turns[..|turns| - 1], turns[|turns| - 1]);
      (r.subs, r.session)
  }

  function AloneTurn(id: nat, before: seq<Turn>, t: Turn): Outcome
    decreases |before|, 1
  {
    var (subs, session) := Alone(id, before);
    Respond(t.w, subs, session, Array(Bulks(t.parts)))
  }

  /** The replies such a server would have given. */
  function AloneReplies(id: nat, turns: seq<Turn>): (replies: seq<Value>)
    ensures |replies| == |turns|
  {
    if turns == [] then []
    else AloneReplies(id, turns[..|turns| - 1]) + [AloneTurn(id, turns[..|turns| - 1], turns[|turns| - 1]).reply]
  }

  lemma AloneMore(id: nat, turns: seq<Turn>, t: Turn)
    ensures var r := AloneTurn(id, turns, t);
      && Alone(id, turns + [t]) == (r.subs, r.session)
      && AloneReplies(id, turns + [t]) == AloneReplies(id, turns) + [r.reply]
  {
    var all := turns + [t];
    assert all[..|all| - 1] == turns && all[|all| - 1] == t;
  }

  lemma SameTrans(a: Subs, b: Subs, c: Subs, id: nat)
    requires SameOwn(a, b, id) && SameOwn(b, c, id)
    ensures SameOwn(a, c, id)
  {}

  /** The shared server and the client's own agree about this session. */
  ghost predicate Agrees(s: Server, id: nat, turns: seq<Turn>) {
    && Live(s) && id in s.conns && s.conns[id].session == Alone(id, turns).1
    && SameOwn(s.subs, Alone(id, turns).0, id)
  }

  /** So they give the next request the same reply, and agree afterwards. */
  lemma AgreesNext(s: Server, id: nat, turns: seq<Turn>, t: Turn, r: Outcome)
    requires Agrees(s, id, turns) && r == Respond(t.w, s.subs, s.conns[id].session, Array(Bulks(t.parts)))
    ensures AloneReplies(id, turns + [t]) == AloneReplies(id, turns) + [r.reply]
    ensures r.session == Alone(id, turns + [t]).1 && SameOwn(r.subs, Alone(id, turns + [t]).0, id)
  {
    RespondSame(t.w, s.subs, Alone(id, turns).0, s.conns[id].session, Array(Bulks(t.parts)));
    AloneMore(id, turns, t);
  }

  // ---- Inputs from elsewhere ----

  /** What an input from elsewhere does to the connection's queue. */
  lemma ForeignTold(s: Server, a: Input, id: nat)
    requires id in s.conns && id < s.nextConnId && Foreign(a, id)
    ensures id in Step(s, a).conns && Gains(s.conns[id], Step(s, a).conns[id], [], DuePushes(s, a, id))
  {
    match a
    case Receive(other, chunk, last, w, routed) =>
      if other in s.conns && last {
        var held := s.(conns := s.conns[other := s.conns[other].(rx := [])]);
        var incoming := ReadFrame(s.conns[other].rx + chunk);
        if incoming.Request? {
          var r := Respond(w, s.subs, s.conns[other].session, incoming.v);
          ConcludeElsewhere(held, other, r, IsBye(incoming.v), routed, id);
        } else {
          GainsNothing(s.conns[id]);
        }
      } else {
        GainsNothing(s.conns[id]);
      }
    case TagChanged(name, rec) =>
      if rec.Some? {
        RouteTagTold(s, name, rec.value, id);
      } else {
        GainsNothing(s.conns[id]);
      }
    case EventRaised(e) =>
      PushReads(PushEvent(e));
      PushIsTold(s, Listeners(s.subs.events, e.severity, e.category), PushEvent(e), id);
    case _ => GainsNothing(s.conns[id]);
  }

  /** Nor does it touch what the session has subscribed. */
  lemma ForeignSame(s: Server, a: Input, id: nat)
    requires Live(s) && id in s.conns && Foreign(a, id)
    ensures SameOwn(Step(s, a).subs, s.subs, id)
  {
    match a
    case Receive(other, chunk, last, w, routed) =>
      if other in s.conns && last {
        var held := s.(conns := s.conns[other := s.conns[other].(rx := [])]);
        var incoming := ReadFrame(s.conns[other].rx + chunk);
        if incoming.Request? {
          var r := Respond(w, s.subs, s.conns[other].session, incoming.v);
          ConcludeElsewhere(held, other, r, IsBye(incoming.v), routed, id);
          OnlyOwnSubscriptions(w, s.subs, s.conns[other].session, incoming.v);
          OthersSame(s.subs, r.subs, other, id);
        }
      }
    case Disconnected(other) =>
      ClosedIsOwn(s.subs, other);
      OthersSame(s.subs, Closed(s.subs, other), other, id);
    case _ =>
  }

  // ---- Matching by order ----

  function Frames(vs: seq<Value>): seq<string> {
    seq(|vs|, i requires 0 <= i < |vs| => Encoding(vs[i]))
  }

  /** The client reads this reply as a reply, in full but for text after a line break. */
  ghost predicate Readable(v: Value) {
    IsReplyFrame(Encoding(v)) && Decode(Encoding(v)).value == AsRead(v)
  }

  /** What is on its way to the server are the unserved requests, in order; `rx` is what has been
      delivered of the first. */
  ghost predicate Outgoing(rx: string, c2s: seq<string>, requests: seq<seq<string>>, served: nat) {
    && served + |c2s| == |requests|
    && (forall i :: 0 <= i < |requests| ==> Representable(Array(Bulks(requests[i]))))
    && (if c2s == [] then rx == [] else rx + c2s[0] == RequestFrame(requests[served]))
    && forall j :: 1 <= j < |c2s| ==> c2s[j] == RequestFrame(requests[served + j])
  }

  /** The first results are these replies as the client reads them, one for each request in turn. */
  ghost predicate Answered(results: seq<(nat, Result)>, served: seq<Value>, got: nat) {
    got <= |results| && got <= |served| && forall i :: 0 <= i < got ==> results[i] == (i, ResultOf(AsRead(served[i])))
  }

  /** What is on its way back are the replies not yet received, in order. */
  ghost predicate Incoming(replies: seq<string>, served: seq<Value>, c: Client) {
    var got := |c.results|;
    && Answered(c.results, served, got) && replies == Frames(served[got..])
    && got + |c.pending| == c.sent
    && forall j :: 0 <= j < |c.pending| ==> c.pending[j] == got + j
  }

  ghost predicate TurnsOk(n: Net) {
    && |n.turns| <= |n.requests| == n.client.sent
    && (forall i :: 0 <= i < |n.turns| ==> n.turns[i].parts == n.requests[i])
    && forall v <- AloneReplies(n.id, n.turns) :: Readable(v)
  }

  ghost predicate Matched(n: Net) {
    && n.client.open && TurnsOk(n) && Agrees(n.server, n.id, n.turns)
    && var conn := n.server.conns[n.id];
       && Outgoing(conn.rx, n.c2s, n.requests, |n.turns|)
       && Incoming(Replies(n.s2c) + Replies(conn.outbox), AloneReplies(n.id, n.turns), n.client)
       && n.client.pushes + Pushes(n.s2c) + Pushes(conn.outbox) == n.pushed
  }

  /** After the connection is lost: some first results are replies, the rest are lost. */
  ghost predicate Ended(n: Net) {
    && !n.client.open && TurnsOk(n) && n.client.pushes <= n.pushed && n.client.pending == []
    && |n.client.results| == n.client.sent
    && exists got: nat :: Answered(n.client.results, AloneReplies(n.id, n.turns), got)
         && forall i :: got <= i < |n.client.results| ==> n.client.results[i] == (i, Lost)
  }

  // ---- Each step keeps it ----

  lemma OutgoingNext(rx: string, c2s: seq<string>, requests: seq<seq<string>>, served: nat)
    requires Outgoing(rx, c2s, requests, served) && c2s != []
    ensures Outgoing([], c2s[1..], requests, served + 1)
  {}

  lemma OutgoingPart(rx: string, c2s: seq<string>, requests: seq<seq<string>>, served: nat, k: nat)
    requires Outgoing(rx, c2s, requests, served) && c2s != [] && k <= |c2s[0]|
    ensures Outgoing(rx + c2s[0][..k], [c2s[0][k..]] + c2s[1..], requests, served)
  {
    assert c2s[0][..k] + c2s[0][k..] == c2s[0];
    Regroup(rx, c2s[0][..k], c2s[0][k..]);
  }

  lemma OutgoingSend(rx: string, c2s: seq<string>, requests: seq<seq<string>>, served: nat, parts: seq<string>)
    requires Outgoing(rx, c2s, requests, served) && Representable(Array(Bulks(parts)))
    ensures Outgoing(rx, c2s + [RequestFrame(parts)], requests + [parts], served)
  {
    assert [] + RequestFrame(parts) == RequestFrame(parts);
  }

  lemma SendKeeps(n: Net, parts: seq<string>)
    requires Matched(n) && Enabled(n, Send(parts))
    ensures Matched(NetStep(n, Send(parts)))
  {
    OutgoingSend(n.server.conns[n.id].rx, n.c2s, n.requests, |n.turns|, parts);
  }

  lemma FramesSnoc(served: seq<Value>, got: nat, v: Value)
    requires got <= |served|
    ensures Frames((served + [v])[got..]) == Frames(served[got..]) + [Encoding(v)]
  {
    assert (served + [v])[got..] == served[got..] + [v];
  }

  lemma IncomingSnoc(s2c: seq<string>, outbox: seq<string>, after: seq<string>, served: seq<Value>, v: Value, c: Client)
    requires Incoming(Replies(s2c) + Replies(outbox), served, c)
    requires Replies(after) == Replies(outbox) + [Encoding(v)]
    ensures Incoming(Replies(s2c) + Replies(after), served + [v], c)
  {
    FramesSnoc(served, |c.results|, v);
    Regroup(Replies(s2c), Replies(outbox), [Encoding(v)]);
  }

  /** What the server's side of the net is after one more input. */
  lemma PushesMore(before: seq<Value>, s2c: seq<Value>, outbox: seq<Value>, more: seq<Value>)
    ensures before + s2c + outbox + more == before + s2c + (outbox + more)
  {
    Regroup(before + s2c, outbox, more);
  }

  /** The last piece of a request arrives: the net after it, given what the server made of it. */
  lemma ServedNet(n: Net, after: Server, t: Turn, r: Outcome, pushes: seq<Value>)
    requires Matched(n) && n.c2s != [] && t.parts == Asked(n) && Readable(r.reply)
    requires AloneReplies(n.id, n.turns + [t]) == AloneReplies(n.id, n.turns) + [r.reply]
    requires r.session == Alone(n.id, n.turns + [t]).1 && SameOwn(r.subs, Alone(n.id, n.turns + [t]).0, n.id)
    requires Live(after) && n.id in after.conns && after.subs == r.subs
    requires Gains(n.server.conns[n.id].(rx := [], session := r.session), after.conns[n.id], [Encoding(r.reply)], pushes)
    ensures Matched(n.(server := after, c2s := n.c2s[1..], turns := n.turns + [t], pushed := n.pushed + pushes))
  {
    var conn := n.server.conns[n.id];
    OutgoingNext(conn.rx, n.c2s, n.requests, |n.turns|);
    IncomingSnoc(n.s2c, conn.outbox, after.conns[n.id].outbox, AloneReplies(n.id, n.turns), r.reply, n.client);
    PushesMore(n.client.pushes, Pushes(n.s2c), Pushes(conn.outbox), pushes);
  }

  /** The server's input when the last piece of a request arrives. */
  lemma LastPiece(n: Net, w: World, routed: seq<TagRecord>, r: Outcome)
    requires Matched(n) && n.c2s != [] && Fits(routed) && r == Handled(n, w) && Representable(r.reply)
    ensures var a := Receive(n.id, n.c2s[0], true, w, routed); var after := Step(n.server, a);
      && Live(after) && n.id in after.conns && after.subs == r.subs && Readable(r.reply)
      && Gains(n.server.conns[n.id].(rx := [], session := r.session), after.conns[n.id], [Encoding(r.reply)],
               DuePushes(n.server, a, n.id))
  {
    var a := Receive(n.id, n.c2s[0], true, w, routed);
    var conn, parts := n.server.conns[n.id], Asked(n);
    var held := n.server.(conns := n.server.conns[n.id := conn.(rx := [])]);
    StepLive(n.server, a);
    assert conn.rx + n.c2s[0] == RequestFrame(parts);
    OwnRequest(held, n.id, parts, w, routed, r);
    RequestReads(parts);
    ReplyReads(w, n.server.subs, conn.session, Array(Bulks(parts)));
  }

  lemma DeliverAll(n: Net, w: World, routed: seq<TagRecord>)
    requires Matched(n) && n.c2s != [] && Enabled(n, Deliver(|n.c2s[0]|, w, routed))
    ensures Matched(NetStep(n, Deliver(|n.c2s[0]|, w, routed)))
  {
    var a, r := Receive(n.id, n.c2s[0], true, w, routed), Handled(n, w);
    assert n.c2s[0][..|n.c2s[0]|] == n.c2s[0];
    LastPiece(n, w, routed, r);
    AgreesNext(n.server, n.id, n.turns, Turn(w, Asked(n)), r);
    ServedNet(n, Step(n.server, a), Turn(w, Asked(n)), r, DuePushes(n.server, a, n.id));
  }

  lemma PartReceived(s: Server, id: nat, chunk: string, w: World, routed: seq<TagRecord>)
    requires id in s.conns
    ensures var a := Receive(id, chunk, false, w, routed);
      && Step(s, a) == s.(conns := s.conns[id := s.conns[id].(rx := s.conns[id].rx + chunk)])
      && DuePushes(s, a, id) == []
  {}

  lemma DeliverPart(n: Net, k: nat, w: World, routed: seq<TagRecord>)
    requires Matched(n) && n.c2s != [] && k < |n.c2s[0]|
    ensures Matched(NetStep(n, Deliver(k, w, routed)))
  {
    var conn, head := n.server.conns[n.id], n.c2s[0];
    var a := Receive(n.id, head[..k], false, w, routed);
    OutgoingPart(conn.rx, n.c2s, n.requests, |n.turns|, k);
    PartReceived(n.server, n.id, head[..k], w, routed);
    StepLive(n.server, a);
    PartNet(n, Step(n.server, a), head[..k], [head[k..]] + n.c2s[1..]);
    assert n.pushed + [] == n.pushed;
  }

  /** A piece that does not complete a request only waits. */
  lemma PartNet(n: Net, after: Server, chunk: string, c2s: seq<string>)
    requires Matched(n) && Live(after)
    requires after == n.server.(conns := n.server.conns[n.id := n.server.conns[n.id].(rx := n.server.conns[n.id].rx + chunk)])
    requires Outgoing(n.server.conns[n.id].rx + chunk, c2s, n.requests, |n.turns|)
    ensures Matched(n.(server := after, c2s := c2s))
  {}

  lemma TransmitKeeps(n: Net)
    requires Matched(n) && Enabled(n, Transmit)
    ensures Matched(NetStep(n, Transmit))
  {
    var outbox := n.server.conns[n.id].outbox;
    assert outbox == [outbox[0]] + outbox[1..];
    StepLive(n.server, Writeable(n.id, true));
    QueueAppend([outbox[0]], outbox[1..]);
    QueueAppend(n.s2c, [outbox[0]]);
    Regroup(Replies(n.s2c), Replies([outbox[0]]), Replies(outbox[1..]));
    Regroup(Pushes(n.s2c), Pushes([outbox[0]]), Pushes(outbox[1..]));
    Regroup(n.client.pushes, Pushes(n.s2c), Pushes(outbox));
    Regroup(n.client.pushes, Pushes(n.s2c + [outbox[0]]), Pushes(outbox[1..]));
  }

  lemma FramesCons(served: seq<Value>, got: nat)
    requires got < |served|
    ensures Frames(served[got..]) == [Encoding(served[got])] + Frames(served[got + 1..])
  {}

  /** The next reply answers the oldest request that waits. */
  lemma IncomingReply(frame: string, rest: seq<string>, served: seq<Value>, c: Client)
    requires Incoming([frame] + rest, served, c) && IsReplyFrame(frame) && |served| <= c.sent
    requires forall v <- served :: Readable(v)
    ensures Incoming(rest, served, ClientFrame(c, frame))
    ensures var after := ClientFrame(c, frame); after.sent == c.sent && after.open == c.open && after.pushes == c.pushes
  {
    var got := |c.results|;
    assert ([frame] + rest)[0] == frame && ([frame] + rest)[1..] == rest;
    assert |Frames(served[got..])| == |served| - got;
    FramesCons(served, got);
    var all := Frames(served[got..]);
    assert all[0] == Encoding(served[got]) && all[1..] == Frames(served[got + 1..]);
    assert Readable(served[got]);
  }

  /** Any other frame is delivered as a push or skipped. */
  lemma NoReplyArrives(frame: string, c: Client)
    requires !IsReplyFrame(frame)
    ensures ClientFrame(c, frame) == c.(pushes := c.pushes + PushOf(frame))
  {
    assert c.pushes + [] == c.pushes;
  }

  /** The client after one more frame, when what is left on the way is `rest`. */
  lemma FrameArrives(frame: string, rest: seq<string>, served: seq<Value>, c: Client)
    requires |served| <= c.sent && forall v <- served :: Readable(v)
    requires Incoming((if IsReplyFrame(frame) then [frame] else []) + rest, served, c)
    ensures Incoming(rest, served, ClientFrame(c, frame))
    ensures var after := ClientFrame(c, frame);
      after.sent == c.sent && after.open == c.open && after.pushes == c.pushes + PushOf(frame)
  {
    if IsReplyFrame(frame) {
      IncomingReply(frame, rest, served, c);
      assert c.pushes + [] == c.pushes;
    } else {
      NoReplyArrives(frame, c);
      assert [] + rest == rest;
    }
  }

  lemma ArrivedNet(n: Net, c: Client)
    requires Matched(n) && n.s2c != [] && c.sent == n.client.sent && c.open
    requires c.pushes == n.client.pushes + PushOf(n.s2c[0])
    requires Incoming(Replies(n.s2c[1..]) + Replies(n.server.conns[n.id].outbox), AloneReplies(n.id, n.turns), c)
    ensures Matched(n.(client := c, s2c := n.s2c[1..]))
  {
    Regroup(n.client.pushes, PushOf(n.s2c[0]), Pushes(n.s2c[1..]));
  }

  lemma ArriveKeeps(n: Net)
    requires Matched(n) && Enabled(n, Arrive)
    ensures Matched(NetStep(n, Arrive))
  {
    var frame := n.s2c[0];
    var first := if IsReplyFrame(frame) then [frame] else [];
    var back, out := Replies(n.s2c[1..]), Replies(n.server.conns[n.id].outbox);
    assert Replies(n.s2c) == first + back;
    Regroup(first, back, out);
    FrameArrives(frame, back + out, AloneReplies(n.id, n.turns), n.client);
    ArrivedNet(n, ClientFrame(n.client, frame));
  }

  lemma ElsewhereNet(n: Net, after: Server, pushes: seq<Value>)
    requires Matched(n) && Live(after) && n.id in after.conns && SameOwn(after.subs, n.server.subs, n.id)
    requires Gains(n.server.conns[n.id], after.conns[n.id], [], pushes)
    ensures Matched(n.(server := after, pushed := n.pushed + pushes))
  {
    var out := Replies(n.server.conns[n.id].outbox);
    assert out + [] == out;
    SameTrans(after.subs, n.server.subs, Alone(n.id, n.turns).0, n.id);
    PushesMore(n.client.pushes, Pushes(n.s2c), Pushes(n.server.conns[n.id].outbox), pushes);
  }

  lemma ElsewhereKeeps(n: Net, b: Input)
    requires Matched(n) && Foreign(b, n.id)
    ensures Matched(NetStep(n, Elsewhere(b)))
  {
    var after, pushes := ForeignFacts(n.server, b, n.id);
    ElsewhereNet(n, after, pushes);
  }

  lemma ForeignFacts(s: Server, b: Input, id: nat) returns (after: Server, pushes: seq<Value>)
    requires Live(s) && id in s.conns && Foreign(b, id)
    ensures after == Step(s, b) && pushes == DuePushes(s, b, id)
    ensures Live(after) && id in after.conns && SameOwn(after.subs, s.subs, id)
    ensures Gains(s.conns[id], after.conns[id], [], pushes)
  {
    after, pushes := Step(s, b), DuePushes(s, b, id);
    StepLive(s, b);
    ForeignTold(s, b, id);
    ForeignSame(s, b, id);
  }

  /** The connection is lost: what waits is lost, what has been answered stays. */
  lemma DropEnds(n: Net)
    requires Matched(n)
    ensures Ended(NetStep(n, Drop))
  {
    var m := NetStep(n, Drop);
    ClosedResults(n.client, AloneReplies(n.id, n.turns));
    Regroup(n.client.pushes, Pushes(n.s2c), Pushes(n.server.conns[n.id].outbox));
    assert m.client == ClientClose(n.client) && m.turns == n.turns && m.pushed == n.pushed;
  }

  lemma ClosedResults(c: Client, served: seq<Value>)
    requires Answered(c.results, served, |c.results|)
    requires forall j :: 0 <= j < |c.pending| ==> c.pending[j] == |c.results| + j
    ensures var d := ClientClose(c);
      && |d.results| == |c.results| + |c.pending| && Answered(d.results, served, |c.results|)
      && forall i :: |c.results| <= i < |d.results| ==> d.results[i] == (i, Lost)
  {
    var d := ClientClose(c);
    forall i | |c.results| <= i < |d.results|
      ensures d.results[i] == (i, Lost)
    {
      assert d.results[i] == LostAll(c.pending)[i - |c.results|];
    }
  }

  ghost predicate Kept(n: Net) {
    if n.client.open then Matched(n) else Ended(n)
  }

  lemma NetKeeps(n: Net, a: Action)
    requires Kept(n) && Enabled(n, a)
    ensures Kept(NetStep(n, a))
  {
    if n.client.open {
      match a
      case Send(parts) => SendKeeps(n, parts);
      case Deliver(k, w, routed) =>
        if k == |n.c2s[0]| {
          DeliverAll(n, w, routed);
        } else {
          DeliverPart(n, k, w, routed);
        }
      case Transmit => TransmitKeeps(n);
      case Arrive => ArriveKeeps(n);
      case Elsewhere(b) => ElsewhereKeeps(n, b);
      case Drop => DropEnds(n);
    } else {
      EndedKeeps(n, a);
    }
  }

  lemma EndedKeeps(n: Net, a: Action)
    requires Ended(n) && Enabled(n, a)
    ensures Ended(NetStep(n, a))
  {
    var m := NetStep(n, a);
    assert m.client == n.client && m.turns == n.turns && m.requests == n.requests && n.pushed <= m.pushed && m.id == n.id;
  }

  ghost predicate CanRun(n: Net, acts: seq<Action>)
    decreases |acts|
  {
    acts == [] || (Enabled(n, acts[0]) && CanRun(NetStep(n, acts[0]), acts[1..]))
  }

  function NetRun(n: Net, acts: seq<Action>): Net
    decreases |acts|
  {
    if acts == [] then n else NetRun(NetStep(n, acts[0]), acts[1..])
  }

  lemma {:induction false} RunKeeps(n: Net, acts: seq<Action>)
    requires Kept(n) && CanRun(n, acts)
    ensures Kept(NetRun(n, acts))
    decreases |acts|
  {
    if acts != [] {
      NetKeeps(n, acts[0]);
      RunKeeps(NetStep(n, acts[0]), acts[1..]);
    }
  }

  /** A client whose connection has just been accepted. */
  function Connected(s: Server): Net {
    Net(Step(s, Established), s.nextConnId, FRESH, [], [], [], [], [])
  }

  lemma ConnectedMatches(s: Server)
    requires Live(s)
    ensures Matched(Connected(s))
  {
    var n := Connected(s);
    StepLive(s, Established);
    assert SameOwn(n.server.subs, NOBODY, n.id) by {
      assert n.id !in s.subs.ix.patterns && n.id !in s.conns;
    }
    assert Frames(AloneReplies(n.id, [])[0..]) == [];
  }

  /** After any interleaving of requests, deliveries in any pieces, pushes of every kind, other
      connections' traffic and perhaps the loss of the connection, the client's results are numbered like
      its requests; the i-th is the reply to the i-th request that a server of its own would have given
      after the same requests and the same states of the tags, read in full but for text after a line
      break, or is lost with the connection.  The pushes delivered are the first of those due, in order.
      Once nothing is on its way every request has its result and every push has been delivered. */
  lemma RequestsGetTheirReplies(s: Server, acts: seq<Action>)
    requires Live(s) && CanRun(Connected(s), acts)
    ensures var n := NetRun(Connected(s), acts); var results, replies := n.client.results, AloneReplies(n.id, n.turns);
      && |replies| == |n.turns| <= |n.requests|
      && (forall i :: 0 <= i < |n.turns| ==> n.turns[i].parts == n.requests[i])
      && (forall i :: 0 <= i < |results| ==>
            results[i] == (i, Lost) || (i < |replies| && results[i] == (i, ResultOf(AsRead(replies[i])))))
      && (n.client.open ==> forall i :: 0 <= i < |results| ==> results[i].1 != Lost)
      && (!n.client.open ==> |results| == |n.requests|)
      && n.client.pushes <= n.pushed
      && (n.client.open && n.c2s == [] && n.s2c == [] && n.id in n.server.conns && n.server.conns[n.id].outbox == [] ==>
            |results| == |n.requests| && n.client.pending == [] && n.client.pushes == n.pushed)
  {
    ConnectedMatches(s);
    RunKeeps(Connected(s), acts);
    var n := NetRun(Connected(s), acts);
  }
}
