/** Commands: what each request is answered with and what it changes. */
module Dispatchers {
  import opened Options
  import opened IrspValues
  import opened Topics
  import opened SubscriptionIndex
  import opened TopicTries
  import opened RingArithmetic

  datatype TagRecord = TagRecord(name: string, tag: string, ts: Int64, value: string)

  datatype WriteResult = Accepted | NotHandled | Failed

  /** What the dispatcher sees of the rest of the runtime while it handles one request. */
  datatype World = World(
    tags: nat -> map<string, TagRecord>,  // what is stored when the request looks for the n-th time
    scan: (string, string, nat) -> (seq<string>, string),
    writer: Option<(string, string, string) -> WriteResult>
  )

  datatype EventFilter = EventFilter(minRank: nat, category: string)

  datatype Session = Session(id: nat, hello: bool)

  /** All subscriptions. */
  datatype Subs = Subs(ix: Index, events: map<nat, EventFilter>)

  /** `wrote` tells that the write-back exit has been called. */
  datatype Outcome = Outcome(subs: Subs, session: Session, reply: Value, wrote: bool)

  function UpperChar(c: char): char {
    if 'a' <= c <= 'z' then c - 'a' + 'A' else c
  }

  function Upper(s: string): string {
    seq(|s|, i requires 0 <= i < |s| => UpperChar(s[i]))
  }

  function SeverityRank(s: string): Option<nat> {
    if s == "info" then Some(0)
    else if s == "warning" then Some(1)
    else if s == "alarm" then Some(2)
    else if s == "critical" then Some(3)
    else None
  }

  /** A `size_t` written in digits only. */
  function ParseCount(s: string): Option<nat> {
    if s != [] && AllDigits(s) && Numeral(s) < 0x1_0000_0000_0000_0000 then Some(Numeral(s)) else None
  }

  function Field(key: string, val: Value): Entry {
    Entry(Bulk(key), val)
  }

  function TagMap(rec: TagRecord): Value {
    Map([Field("name", Bulk(rec.name)), Field("type", Bulk(rec.tag)), Field("ts", Integer(rec.ts)),
         Field("value", Bulk(rec.value))])
  }

  function HelloMap(): Value {
    Map([Field("server", Bulk("industrial-runtime/1.0.0")), Field("version", Bulk("1")),
         Field("encoding", Bulk("irsp1")), Field("transports", Bulk("websocket")),
         Field("capabilities", Bulk("tag,event"))])
  }

  /** The `i`-th look at a tag; the empty name is never read, even if a tag is stored under it. */
  function Read(w: World, i: nat, name: string): Value {
    if name != "" && name in w.tags(i) then TagMap(w.tags(i)[name]) else Null
  }

  predicate AllBulk(items: seq<Value>) {
    forall v <- items :: v.Bulk?
  }

  function Texts(items: seq<Value>): seq<string>
    requires AllBulk(items)
  {
    seq(|items|, i requires 0 <= i < |items| => assert items[i] in items; items[i].data)
  }

  function Bulks(texts: seq<string>): seq<Value> {
    seq(|texts|, i requires 0 <= i < |texts| => Bulk(texts[i]))
  }

  /** Subscribing one pattern after the other. */
  function SubscribeEach(ix: Index, patterns: seq<string>, id: nat): Index {
    if patterns == [] then ix
    else Subscribe(SubscribeEach(ix, patterns[..|patterns| - 1], id), patterns[|patterns| - 1], id)
  }

  function UnsubscribeEach(ix: Index, patterns: seq<string>, id: nat): Index {
    if patterns == [] then ix
    else Unsubscribe(UnsubscribeEach(ix, patterns[..|patterns| - 1], id), patterns[|patterns| - 1], id)
  }

  predicate Subscribes(name: string) {
    name == "WATCH" || name == "SUBSCRIBE" || name == "UNWATCH" || name == "UNSUBSCRIBE"
    || name == "SUBEVENT" || name == "UNSUBEVENT"
  }

  /** Does this command reach the write-back exit? */
  predicate Writes(w: World, name: string, args: seq<string>) {
    name == "SET" && |args| == 3 && w.writer.Some?
  }

  /** Commands that change no subscription. */
  function Answer(w: World, raw: string, name: string, args: seq<string>): Value {
    if name == "PING" then if |args| >= 1 then Bulk(args[0]) else Simple("PONG")
    else if name == "BYE" then Simple("OK")
    else if name == "AUTH" then Error("NOT_IMPLEMENTED", "auth is reserved")
    else if name == "GET" then
      if |args| != 1 then Error("WRONG_ARITY", "GET requires <topic>") else Read(w, 0, args[0])
    else if name == "MGET" then
      if |args| < 1 then Error("WRONG_ARITY", "MGET requires <topic>...")
      else Array(seq(|args|, i requires 0 <= i < |args| => Read(w, i, args[i])))
    else if name == "EXISTS" then
      if |args| != 1 then Error("WRONG_ARITY", "EXISTS requires <topic>")
      else Integer(if args[0] in w.tags(0) then 1 else 0)
    else if name == "SCAN" then Scan(w, args)
    else if name == "SET" then
      if |args| != 3 then Error("WRONG_ARITY", "SET <topic> <type> <value>")
      else if w.writer.None? then Error("NOT_IMPLEMENTED", "write-back not available")
      else match w.writer.value(args[0], args[1], args[2]) {
        case Accepted => Simple("OK")
        case NotHandled => Error("NOT_FOUND", "no writer for topic")
        case Failed => Error("ERR", "write failed")
      }
    else if name == "SUBSTREAM" || name == "UNSUBSTREAM" then
      Error("NOT_IMPLEMENTED", "stream subscription is reserved for V2")
    else Error("UNKNOWN_COMMAND", raw)
  }

  function Scan(w: World, args: seq<string>): Value {
    if |args| != 2 && |args| != 4 then Error("WRONG_ARITY", "SCAN <cursor> <pattern> [COUNT <n>]")
    else if |args| == 4 && (Upper(args[2]) != "COUNT" || ParseCount(args[3]).None?) then Error("ERR", "expected COUNT <n>")
    else if !IsValidPattern(args[1]) then Error("ERR", "invalid scan pattern")
    else
      var page := w.scan(args[0], args[1], if |args| == 4 then ParseCount(args[3]).value else 0);
      Array([Bulk(page.1), Array(Bulks(page.0))])
  }

  /** The number of remembered patterns, as the 64-bit integer the reply carries. */
  function CountReply(ix: Index, id: nat): Value {
    Integer(AsSigned(|Pats(ix, id)| % WORD))
  }

  /** Commands that do. */
  function Subscription(subs: Subs, id: nat, name: string, args: seq<string>): (Subs, Value)
    requires Subscribes(name)
  {
    if name == "WATCH" || name == "SUBSCRIBE" then
      if |args| < 1 then
        (subs, Error("WRONG_ARITY", if name == "WATCH" then "WATCH requires <topic>..." else "SUBSCRIBE requires <pattern>..."))
      else if exists a <- args :: !(if name == "WATCH" then IsConcrete(a) else IsValidPattern(a)) then
        (subs, Error("ERR", if name == "WATCH" then "WATCH requires concrete topics" else "invalid subscribe pattern"))
      else
        var ix := SubscribeEach(subs.ix, args, id);
        (subs.(ix := ix), CountReply(ix, id))
    else if name == "UNWATCH" || name == "UNSUBSCRIBE" then
      var ix := if args == [] then UnsubscribeAll(subs.ix, id) else UnsubscribeEach(subs.ix, args, id);
      (subs.(ix := ix), CountReply(ix, id))
    else if name == "SUBEVENT" then
      if |args| >= 1 && SeverityRank(args[0]).None? then (subs, Error("ERR", "unknown severity"))
      else
        var filter := EventFilter(if |args| >= 1 then SeverityRank(args[0]).value else 0, if |args| >= 2 then args[1] else "");
        (subs.(events := subs.events[id := filter]), Integer(1))
    else (subs.(events := subs.events - {id}), Integer(0))
  }

  function Hello(subs: Subs, session: Session, args: seq<string>): Outcome {
    if |args| < 1 then Outcome(subs, session, Error("WRONG_ARITY", "HELLO requires <version>"), false)
    else if args[0] != "1" then
      Outcome(subs, session, Error("UNSUPPORTED_VERSION", "only version 1 is supported"), false)
    else Outcome(subs, session.(hello := true), HelloMap(), false)
  }

  function Respond(w: World, subs: Subs, session: Session, request: Value): Outcome {
    if !request.Array? || request.items == [] then
      Outcome(subs, session, Error("PROTOCOL_ERROR", "expected non-empty command array"), false)
    else if !AllBulk(request.items) then
      Outcome(subs, session, Error("PROTOCOL_ERROR", "command elements must be bulk strings"), false)
    else
      var parts := Texts(request.items);
      var name, args := Upper(parts[0]), parts[1..];
      if name != "HELLO" && !session.hello then
        Outcome(subs, session, Error("NOT_READY", "HELLO required first"), false)
      else if name == "HELLO" then Hello(subs, session, args)
      else if Subscribes(name) then
        var r := Subscription(subs, session.id, name, args);
        Outcome(r.0, session, r.1, false)
      else Outcome(subs, session, Answer(w, parts[0], name, args), Writes(w, name, args))
  }

  // ---- Properties of every request ----

  /** Does a map have that text among its keys? */
  predicate HasKey(entries: seq<Entry>, key: string) {
    exists e <- entries :: e.key == Bulk(key) || e.key == Simple(key)
  }

  /** What a client takes for a push: a map with a `push` key. */
  predicate IsPush(v: Value) {
    v.Map? && HasKey(v.entries, "push")
  }

  /** A reply is never taken for a push, whatever the request, the tags or the writer. */
  lemma ReplyIsNoPush(w: World, subs: Subs, session: Session, request: Value)
    ensures !IsPush(Respond(w, subs, session, request).reply)
  {}

  /** A request that is answered with an error changes nothing. */
  lemma ErrorsChangeNothing(w: World, subs: Subs, session: Session, request: Value)
    ensures var r := Respond(w, subs, session, request);
      r.reply.Error? ==> r.subs == subs && r.session == session
  {}

  /** The session keeps its id, and HELLO is never forgotten; before it nothing else has effect. */
  lemma HelloFirst(w: World, subs: Subs, session: Session, request: Value)
    ensures var r := Respond(w, subs, session, request);
      && r.session.id == session.id && (session.hello ==> r.session.hello)
      && (!session.hello ==> r.subs == subs && !r.wrote && (r.session.hello <==> r.reply == HelloMap()))
  {}

  /** Two registries differ at most in what one subscriber has. */
  ghost predicate SameOthers(a: Index, b: Index, id: nat) {
    forall e: (string, nat) :: e.1 != id ==> (e in a.entries <==> e in b.entries)
  }

  ghost predicate SamePatterns(a: Index, b: Index, id: nat) {
    forall other :: other != id ==> Pats(a, other) == Pats(b, other)
  }

  lemma {:induction false} EachIsOwn(ix: Index, patterns: seq<string>, id: nat)
    requires Sound(ix)
    ensures Sound(SubscribeEach(ix, patterns, id)) && Sound(UnsubscribeEach(ix, patterns, id))
    ensures SameOthers(ix, SubscribeEach(ix, patterns, id), id) && SamePatterns(ix, SubscribeEach(ix, patterns, id), id)
    ensures SameOthers(ix, UnsubscribeEach(ix, patterns, id), id) && SamePatterns(ix, UnsubscribeEach(ix, patterns, id), id)
  {
    if patterns != [] {
      var last, rest := patterns[|patterns| - 1], patterns[..|patterns| - 1];
      EachIsOwn(ix, rest, id);
      ApplySound(SubscribeEach(ix, rest, id), Sub(last, id));
      ApplySound(UnsubscribeEach(ix, rest, id), Unsub(last, id));
    }
  }

  /** Registries that differ at most in what one subscriber has. */
  ghost predicate OwnChange(a: Subs, b: Subs, id: nat) {
    Sound(b.ix) && SameOthers(a.ix, b.ix, id) && SamePatterns(a.ix, b.ix, id) && a.events - {id} == b.events - {id}
  }

  lemma SubscriptionIsOwn(subs: Subs, id: nat, name: string, args: seq<string>)
    requires Sound(subs.ix) && Subscribes(name)
    ensures OwnChange(subs, Subscription(subs, id, name, args).0, id)
  {
    ApplySound(subs.ix, UnsubAll(id));
    EachIsOwn(subs.ix, args, id);
  }

  /** A request changes only its own session's subscriptions. */
  lemma OnlyOwnSubscriptions(w: World, subs: Subs, session: Session, request: Value)
    requires Sound(subs.ix)
    ensures OwnChange(subs, Respond(w, subs, session, request).subs, session.id)
  {
    if request.Array? && request.items != [] && AllBulk(request.items) {
      var parts := Texts(request.items);
      if Subscribes(Upper(parts[0])) {
        SubscriptionIsOwn(subs, session.id, Upper(parts[0]), parts[1..]);
      }
    }
  }

  // ---- A session never notices the others ----

  /** Two registries hold the same for one subscriber. */
  ghost predicate SameIndex(a: Index, b: Index, id: nat) {
    Pats(a, id) == Pats(b, id) && forall p: string :: (p, id) in a.entries <==> (p, id) in b.entries
  }

  ghost predicate SameOwn(a: Subs, b: Subs, id: nat) {
    && SameIndex(a.ix, b.ix, id) && (id in a.events <==> id in b.events)
    && (id in a.events ==> a.events[id] == b.events[id])
  }

  lemma SubscribeSame(a: Index, b: Index, pattern: string, id: nat)
    requires SameIndex(a, b, id)
    ensures SameIndex(Subscribe(a, pattern, id), Subscribe(b, pattern, id), id)
  {}

  lemma UnsubscribeSame(a: Index, b: Index, pattern: string, id: nat)
    requires SameIndex(a, b, id)
    ensures SameIndex(Unsubscribe(a, pattern, id), Unsubscribe(b, pattern, id), id)
  {
    UnsubscribeOwn(a, pattern, id);
    UnsubscribeOwn(b, pattern, id);
  }

  /** What an unsubscribe leaves of the subscriber's own. */
  lemma UnsubscribeOwn(ix: Index, pattern: string, id: nat)
    ensures var r := Unsubscribe(ix, pattern, id); var walked := WalkedPattern(pattern);
      && Pats(r, id) == (if (walked, id) in ix.entries then Pats(ix, id) - {pattern} else Pats(ix, id))
      && forall p: string :: (p, id) in r.entries <==> (p, id) in ix.entries && p != walked
  {}

  /** Likewise for "unsubscribe all". */
  lemma UnsubscribeAllOwn(ix: Index, id: nat)
    ensures var r := UnsubscribeAll(ix, id);
      && Pats(r, id) == (set p | p in Pats(ix, id) && (p, id) !in ix.entries)
      && forall p: string :: (p, id) in r.entries <==> (p, id) in ix.entries && p !in Pats(ix, id)
  {}

  lemma UnsubscribeAllSame(a: Index, b: Index, id: nat)
    requires SameIndex(a, b, id)
    ensures SameIndex(UnsubscribeAll(a, id), UnsubscribeAll(b, id), id)
  {
    UnsubscribeAllOwn(a, id);
    UnsubscribeAllOwn(b, id);
    assert (set p | p in Pats(a, id) && (p, id) !in a.entries) == (set p | p in Pats(b, id) && (p, id) !in b.entries);
  }

  lemma {:induction false} EachSame(a: Index, b: Index, patterns: seq<string>, id: nat)
    requires SameIndex(a, b, id)
    ensures SameIndex(SubscribeEach(a, patterns, id), SubscribeEach(b, patterns, id), id)
    ensures SameIndex(UnsubscribeEach(a, patterns, id), UnsubscribeEach(b, patterns, id), id)
  {
    if patterns != [] {
      var last, rest := patterns[|patterns| - 1], patterns[..|patterns| - 1];
      EachSame(a, b, rest, id);
      SubscribeSame(SubscribeEach(a, rest, id), SubscribeEach(b, rest, id), last, id);
      UnsubscribeSame(UnsubscribeEach(a, rest, id), UnsubscribeEach(b, rest, id), last, id);
    }
  }

  lemma SubscriptionSame(a: Subs, b: Subs, id: nat, name: string, args: seq<string>)
    requires Subscribes(name) && SameOwn(a, b, id)
    ensures Subscription(a, id, name, args).1 == Subscription(b, id, name, args).1
    ensures SameOwn(Subscription(a, id, name, args).0, Subscription(b, id, name, args).0, id)
  {
    EachSame(a.ix, b.ix, args, id);
    UnsubscribeAllSame(a.ix, b.ix, id);
  }

  /** What a request is answered with, and what becomes of its session, depends on that session's own
      subscriptions only. */
  lemma RespondSame(w: World, a: Subs, b: Subs, session: Session, request: Value)
    requires SameOwn(a, b, session.id)
    ensures var r, q := Respond(w, a, session, request), Respond(w, b, session, request);
      r.reply == q.reply && r.session == q.session && r.wrote == q.wrote && SameOwn(r.subs, q.subs, session.id)
  {
    if request.Array? && request.items != [] && AllBulk(request.items) {
      var parts := Texts(request.items);
      if Subscribes(Upper(parts[0])) {
        SubscriptionSame(a, b, session.id, Upper(parts[0]), parts[1..]);
      }
    }
  }

  /** A change of one session's own leaves every other session's as it was. */
  lemma OthersSame(a: Subs, b: Subs, id: nat, other: nat)
    requires OwnChange(a, b, id) && other != id
    ensures SameOwn(a, b, other)
  {
    assert other in a.events <==> other in a.events - {id};
    assert other in b.events <==> other in b.events - {id};
    assert other in a.events ==> a.events[other] == (a.events - {id})[other] == (b.events - {id})[other];
  }

  // ---- Reads ----

  /** The runtime as it is seen from the `i`-th look at the tags on. */
  function From(w: World, i: nat): World {
    w.(tags := (k: nat) => w.tags(i + k))
  }

  /** MGET answers, item by item, as a GET at that moment would. */
  lemma ManyAsOne(w: World, raw: string, args: seq<string>)
    requires args != []
    ensures var all := Answer(w, raw, "MGET", args);
      all.Array? && |all.items| == |args|
      && forall i :: 0 <= i < |args| ==> all.items[i] == Answer(From(w, i), raw, "GET", [args[i]])
  {
    forall i | 0 <= i < |args|
      ensures Read(w, i, args[i]) == Answer(From(w, i), raw, "GET", [args[i]])
    {
      assert From(w, i).tags(0) == w.tags(i);
    }
  }

  /** EXISTS says what GET would find, exactly unless a tag is stored under the empty name: EXISTS sees that
      one, and GET never reads it. */
  lemma ExistsAgreesIff(w: World, raw: string, name: string)
    ensures (Answer(w, raw, "EXISTS", [name]) == Integer(1) <==> Answer(w, raw, "GET", [name]) != Null)
       <==> !(name == "" && "" in w.tags(0))
  {
    assert Answer(w, raw, "EXISTS", [name]) == Integer(if name in w.tags(0) then 1 else 0);
    assert Answer(w, raw, "GET", [name]) == Read(w, 0, name);
  }

  /** It happens as soon as any tag is stored under that name. */
  lemma EmptyNameDisagrees(w: World, raw: string)
    requires "" in w.tags(0)
    ensures Answer(w, raw, "EXISTS", [""]) == Integer(1) && Answer(w, raw, "GET", [""]) == Null
    ensures Answer(w, raw, "MGET", [""]) == Array([Null])
  {
    var items := seq(1, i requires 0 <= i < 1 => Read(w, i, [""][i]));
    assert items == [Null];
  }

  function PairsOf(patterns: seq<string>, id: nat): set<(string, nat)> {
    set p | p in patterns :: (p, id)
  }

  lemma OneEntry(ix: Index, pattern: string, id: nat)
    requires IsValidPattern(pattern)
    ensures Subscribe(ix, pattern, id).entries == ix.entries + {(pattern, id)}
    ensures Unsubscribe(ix, pattern, id).entries == ix.entries - {(pattern, id)}
  {
    WalkedValid(pattern);
  }

  lemma PairsMore(rest: seq<string>, last: string, id: nat, entries: set<(string, nat)>)
    ensures entries + PairsOf(rest, id) + {(last, id)} == entries + PairsOf(rest + [last], id)
    ensures entries - PairsOf(rest, id) - {(last, id)} == entries - PairsOf(rest + [last], id)
  {
    assert PairsOf(rest + [last], id) == PairsOf(rest, id) + {(last, id)};
  }

  ghost predicate AllValid(patterns: seq<string>) {
    forall p <- patterns :: IsValidPattern(p)
  }

  lemma LastEntry(ix: Index, rest: seq<string>, last: string, id: nat)
    requires AllValid(rest + [last])
    ensures AllValid(rest)
    ensures SubscribeEach(ix, rest + [last], id).entries == SubscribeEach(ix, rest, id).entries + {(last, id)}
    ensures UnsubscribeEach(ix, rest + [last], id).entries == UnsubscribeEach(ix, rest, id).entries - {(last, id)}
  {
    var all := rest + [last];
    assert all[..|all| - 1] == rest && all[|all| - 1] == last;
    assert last in all && forall p <- rest :: p in all;
    OneEntry(SubscribeEach(ix, rest, id), last, id);
    OneEntry(UnsubscribeEach(ix, rest, id), last, id);
  }

  /** With valid patterns one command adds, or drops, exactly its own entries. */
  lemma {:induction false} EachEntries(ix: Index, patterns: seq<string>, id: nat)
    requires AllValid(patterns)
    ensures SubscribeEach(ix, patterns, id).entries == ix.entries + PairsOf(patterns, id)
    ensures UnsubscribeEach(ix, patterns, id).entries == ix.entries - PairsOf(patterns, id)
    decreases |patterns|
  {
    if patterns == [] {
      assert PairsOf([], id) == {};
    } else {
      var last, rest := patterns[|patterns| - 1], patterns[..|patterns| - 1];
      assert patterns == rest + [last];
      LastEntry(ix, rest, last, id);
      EachEntries(ix, rest, id);
      PairsMore(rest, last, id, ix.entries);
    }
  }

  lemma AddedMatches(ix: Index, more: Index, patterns: seq<string>, id: nat, topic: string, who: nat)
    requires more.entries == ix.entries + PairsOf(patterns, id)
    ensures who in MatchSet(more, topic) <==>
            who in MatchSet(ix, topic) || (who == id && exists p <- patterns :: Matches(p, topic))
  {
    if who in MatchSet(more, topic) {
      var e :| e in more.entries && Matches(e.0, topic) && e.1 == who;
      assert e in ix.entries || e in PairsOf(patterns, id);
    }
    if who in MatchSet(ix, topic) {
      var e :| e in ix.entries && Matches(e.0, topic) && e.1 == who;
      assert e in more.entries;
    }
    if p :| p in patterns && Matches(p, topic) {
      assert (p, id) in PairsOf(patterns, id) && (p, id) in more.entries;
    }
  }

  lemma SubscribeIs(w: World, subs: Subs, session: Session, raw: string, args: seq<string>)
    requires session.hello && Upper(raw) == "SUBSCRIBE" && args != [] && forall a <- args :: IsValidPattern(a)
    ensures Respond(w, subs, session, Array(Bulks([raw] + args))).subs.ix == SubscribeEach(subs.ix, args, session.id)
  {
    var items := Bulks([raw] + args);
    assert AllBulk(items) && Texts(items) == [raw] + args;
    assert ([raw] + args)[1..] == args;
  }

  /** After a SUBSCRIBE of valid patterns, however its name is capitalized, exactly the sessions told
      about a topic before are told, and this one if one of its patterns matches. */
  lemma SubscribeTells(w: World, subs: Subs, session: Session, raw: string, args: seq<string>, topic: string, who: nat)
    requires session.hello && Upper(raw) == "SUBSCRIBE" && args != [] && forall a <- args :: IsValidPattern(a)
    ensures var after := Respond(w, subs, session, Array(Bulks([raw] + args))).subs;
      who in MatchSet(after.ix, topic) <==>
      who in MatchSet(subs.ix, topic) || (who == session.id && exists a <- args :: Matches(a, topic))
  {
    SubscribeIs(w, subs, session, raw, args);
    assert AllValid(args);
    EachEntries(subs.ix, args, session.id);
    AddedMatches(subs.ix, SubscribeEach(subs.ix, args, session.id), args, session.id, topic, who);
  }

  /** After UNSUBSCRIBE without arguments the session is told about no topic, whatever it had sent
      before, and everybody else about the same ones. */
  lemma UnsubscribeSilences(w: World, subs: Subs, session: Session, raw: string, topic: string, who: nat)
    requires Sound(subs.ix) && session.hello && Upper(raw) == "UNSUBSCRIBE"
    ensures var after := Respond(w, subs, session, Array(Bulks([raw]))).subs;
      who in MatchSet(after.ix, topic) <==> who != session.id && who in MatchSet(subs.ix, topic)
  {
    var items := Bulks([raw]);
    assert AllBulk(items) && Texts(items) == [raw];
    UnsubscribeAllSilences(subs.ix, session.id, who, topic);
  }

  // ---- The dispatcher itself ----

  class Dispatcher {
    const tagSubs: TopicTrie
    var eventSubs: map<nat, EventFilter>

    ghost predicate Valid()
      reads this, tagSubs, tagSubs.nodeAt.Values
    {
      tagSubs.Valid()
    }

    ghost function View(): Subs
      reads this, tagSubs
    {
      Subs(tagSubs.View(), eventSubs)
    }

    constructor ()
      ensures Valid() && View() == Subs(EMPTY, map[])
      ensures fresh(tagSubs) && fresh(tagSubs.nodeAt.Values)
    {
      tagSubs := new TopicTrie();
      eventSubs := map[];
    }

    method SubscribeAll(patterns: seq<string>, id: nat)
      requires Valid()
      modifies tagSubs, tagSubs.nodeAt.Values
      ensures Valid() && fresh(tagSubs.nodeAt.Values - old(tagSubs.nodeAt.Values))
      ensures tagSubs.View() == SubscribeEach(old(tagSubs.View()), patterns, id)
    {
      var i := 0;
      while i < |patterns|
        invariant i <= |patterns| && Valid() && fresh(tagSubs.nodeAt.Values - old(tagSubs.nodeAt.Values))
        invariant tagSubs.View() == SubscribeEach(old(tagSubs.View()), patterns[..i], id)
      {
        var _ := tagSubs.Subscribe(patterns[i], id);
        assert patterns[..i + 1][..i] == patterns[..i];
        i := i + 1;
      }
      assert patterns[..i] == patterns;
    }

    method UnsubscribeThese(patterns: seq<string>, id: nat)
      requires Valid()
      modifies tagSubs, tagSubs.nodeAt.Values
      ensures Valid() && tagSubs.nodeAt == old(tagSubs.nodeAt)
      ensures tagSubs.View() == UnsubscribeEach(old(tagSubs.View()), patterns, id)
    {
      var i := 0;
      while i < |patterns|
        invariant i <= |patterns| && Valid() && tagSubs.nodeAt == old(tagSubs.nodeAt)
        invariant tagSubs.View() == UnsubscribeEach(old(tagSubs.View()), patterns[..i], id)
      {
        var _ := tagSubs.Unsubscribe(patterns[i], id);
        assert patterns[..i + 1][..i] == patterns[..i];
        i := i + 1;
      }
      assert patterns[..i] == patterns;
    }

    method Count(id: nat) returns (reply: Value)
      requires Valid()
      ensures reply == CountReply(tagSubs.View(), id)
    {
      var n := tagSubs.CountFor(id);
      reply := Integer(AsSigned(n % WORD));
    }

    method HandleSubscription(id: nat, name: string, args: seq<string>) returns (reply: Value)
      requires Valid() && Subscribes(name)
      modifies this`eventSubs, tagSubs, tagSubs.nodeAt.Values
      ensures Valid() && fresh(tagSubs.nodeAt.Values - old(tagSubs.nodeAt.Values))
      ensures (View(), reply) == Subscription(old(View()), id, name, args)
    {
      if name == "WATCH" || name == "SUBSCRIBE" {
        var watch := name == "WATCH";
        if |args| < 1 {
          return Error("WRONG_ARITY", if watch then "WATCH requires <topic>..." else "SUBSCRIBE requires <pattern>...");
        }
        var fits := AllFit(args, watch);
        if !fits {
          return Error("ERR", if watch then "WATCH requires concrete topics" else "invalid subscribe pattern");
        }
        SubscribeAll(args, id);
        reply := Count(id);
      } else if name == "UNWATCH" || name == "UNSUBSCRIBE" {
        if args == [] {
          tagSubs.UnsubscribeAll(id);
        } else {
          UnsubscribeThese(args, id);
        }
        reply := Count(id);
      } else if name == "SUBEVENT" {
        var rank := 0;
        if |args| >= 1 {
          var r := SeverityRank(args[0]);
          if r.None? {
            return Error("ERR", "unknown severity");
          }
          rank := r.value;
        }
        eventSubs := eventSubs[id := EventFilter(rank, if |args| >= 2 then args[1] else "")];
        reply := Integer(1);
      } else {
        eventSubs := eventSubs - {id};
        reply := Integer(0);
      }
    }

    /** Answers one request; `wrote` tells that the write-back exit has been called. */
    method Handle(w: World, session: Session, request: Value) returns (after: Session, reply: Value, wrote: bool)
      requires Valid()
      modifies this`eventSubs, tagSubs, tagSubs.nodeAt.Values
      ensures Valid() && fresh(tagSubs.nodeAt.Values - old(tagSubs.nodeAt.Values))
      ensures Outcome(View(), after, reply, wrote) == Respond(w, old(View()), session, request)
    {
      after, wrote := session, false;
      if !request.Array? || request.items == [] {
        return after, Error("PROTOCOL_ERROR", "expected non-empty command array"), false;
      }
      var parts := PartsOf(request.items);
      if parts.None? {
        return after, Error("PROTOCOL_ERROR", "command elements must be bulk strings"), false;
      }
      var raw, args := parts.value[0], parts.value[1..];
      var name := Upper(raw);
      if name != "HELLO" && !session.hello {
        return after, Error("NOT_READY", "HELLO required first"), false;
      }
      if name == "HELLO" {
        if |args| < 1 {
          return after, Error("WRONG_ARITY", "HELLO requires <version>"), false;
        }
        if args[0] != "1" {
          return after, Error("UNSUPPORTED_VERSION", "only version 1 is supported"), false;
        }
        return session.(hello := true), HelloMap(), false;
      }
      if Subscribes(name) {
        reply := HandleSubscription(session.id, name, args);
      } else if name == "SET" {
        reply, wrote := WriteBack(w, args);
      } else {
        reply := Inform(w, raw, name, args);
      }
    }

    method OnSessionClosed(id: nat)
      requires Valid()
      modifies this`eventSubs, tagSubs, tagSubs.nodeAt.Values
      ensures Valid() && tagSubs.nodeAt == old(tagSubs.nodeAt)
      ensures View() == Closed(old(View()), id)
    {
      tagSubs.UnsubscribeAll(id);
      eventSubs := eventSubs - {id};
    }

    /** Sessions whose filter lets an event through, in ascending order. */
    method EventSubscribers(rank: nat, category: string) returns (ids: seq<nat>)
      ensures Ascending(ids) && forall id: nat :: id in ids <==> id in Listeners(eventSubs, rank, category)
    {
      var found: set<nat> := {};
      var rest := eventSubs.Keys;
      while rest != {}
        invariant rest <= eventSubs.Keys
        invariant found == Listeners(eventSubs, rank, category) - rest
        decreases rest
      {
        var id :| id in rest;
        rest := rest - {id};
        if rank >= eventSubs[id].minRank && (eventSubs[id].category == "" || eventSubs[id].category == category) {
          found := found + {id};
        }
      }
      ids := ToAscending(found);
    }
  }

  function Closed(subs: Subs, id: nat): Subs {
    Subs(UnsubscribeAll(subs.ix, id), subs.events - {id})
  }

  function Listeners(events: map<nat, EventFilter>, rank: nat, category: string): set<nat> {
    set id | id in events && events[id].minRank <= rank && (events[id].category == "" || events[id].category == category)
  }

  /** All elements as texts, unless one of them is not a bulk string. */
  method PartsOf(items: seq<Value>) returns (parts: Option<seq<string>>)
    ensures parts == if AllBulk(items) then Some(Texts(items)) else None
  {
    var texts: seq<string> := [];
    var i := 0;
    while i < |items|
      invariant i <= |items| && AllBulk(items[..i]) && texts == Texts(items[..i])
    {
      if !items[i].Bulk? {
        assert items[i] in items;
        return None;
      }
      texts := texts + [items[i].data];
      assert items[..i + 1] == items[..i] + [items[i]];
      i := i + 1;
    }
    assert items[..i] == items;
    return Some(texts);
  }

  /** SET: hands the value to the write-back exit. */
  method WriteBack(w: World, args: seq<string>) returns (reply: Value, wrote: bool)
    ensures forall raw :: reply == Answer(w, raw, "SET", args)
    ensures wrote <==> Writes(w, "SET", args)
  {
    if |args| != 3 {
      return Error("WRONG_ARITY", "SET <topic> <type> <value>"), false;
    }
    if w.writer.None? {
      return Error("NOT_IMPLEMENTED", "write-back not available"), false;
    }
    match w.writer.value(args[0], args[1], args[2])
    case Accepted => return Simple("OK"), true;
    case NotHandled => return Error("NOT_FOUND", "no writer for topic"), true;
    case Failed => return Error("ERR", "write failed"), true;
  }

  /** Commands that only tell something. */
  method Inform(w: World, raw: string, name: string, args: seq<string>) returns (reply: Value)
    requires name != "SET"
    ensures reply == Answer(w, raw, name, args)
  {
    if name == "PING" {
      return if |args| >= 1 then Bulk(args[0]) else Simple("PONG");
    }
    if name == "BYE" {
      return Simple("OK");
    }
    if name == "AUTH" {
      return Error("NOT_IMPLEMENTED", "auth is reserved");
    }
    if name == "GET" {
      if |args| != 1 {
        return Error("WRONG_ARITY", "GET requires <topic>");
      }
      reply := ReadOne(w, 0, args[0]);
      return;
    }
    if name == "MGET" {
      if |args| < 1 {
        return Error("WRONG_ARITY", "MGET requires <topic>...");
      }
      reply := ReadMany(w, args);
      return;
    }
    if name == "EXISTS" {
      if |args| != 1 {
        return Error("WRONG_ARITY", "EXISTS requires <topic>");
      }
      return Integer(if args[0] in w.tags(0) then 1 else 0);
    }
    if name == "SCAN" {
      reply := ScanPage(w, args);
      return;
    }
    if name == "SUBSTREAM" || name == "UNSUBSTREAM" {
      return Error("NOT_IMPLEMENTED", "stream subscription is reserved for V2");
    }
    return Error("UNKNOWN_COMMAND", raw);
  }

  method ScanPage(w: World, args: seq<string>) returns (reply: Value)
    ensures reply == Scan(w, args)
  {
    if |args| != 2 && |args| != 4 {
      return Error("WRONG_ARITY", "SCAN <cursor> <pattern> [COUNT <n>]");
    }
    var count := 0;
    if |args| == 4 {
      var n := ReadCount(args[3]);
      if Upper(args[2]) != "COUNT" || n.None? {
        return Error("ERR", "expected COUNT <n>");
      }
      count := n.value;
    }
    var ok := CheckPattern(args[1]);
    if !ok {
      return Error("ERR", "invalid scan pattern");
    }
    var page := w.scan(args[0], args[1], count);
    var names: seq<Value> := [];
    for i := 0 to |page.0|
      invariant names == Bulks(page.0[..i])
    {
      names := names + [Bulk(page.0[i])];
    }
    assert page.0[..|page.0|] == page.0;
    return Array([Bulk(page.1), Array(names)]);
  }

  /** Reads a count digit by digit, up to the first character that is none or the first overflow. */
  method ReadCount(s: string) returns (r: Option<nat>)
    ensures r == ParseCount(s)
  {
    if s == [] {
      return None;
    }
    var n := 0;
    for i := 0 to |s|
      invariant AllDigits(s[..i]) && n == Numeral(s[..i]) < WORD
    {
      if !('0' <= s[i] <= '9') {
        return None;
      }
      assert s[..i + 1][..i] == s[..i] && AllDigits(s[..i + 1]);
      n := 10 * n + (s[i] - '0') as nat;
      if n >= WORD {
        NumeralGrows(s, i + 1);
        return None;
      }
    }
    assert s[..|s|] == s;
    return Some(n);
  }

  /** A number is at least what its first digits say. */
  lemma {:induction false} NumeralGrows(s: string, k: nat)
    requires k <= |s| && AllDigits(s[..k])
    ensures AllDigits(s) ==> Numeral(s) >= Numeral(s[..k])
    decreases |s|
  {
    if AllDigits(s) {
      if k == |s| {
        assert s[..k] == s;
      } else {
        NumeralGrows(s[..|s| - 1], k);
        assert s[..|s| - 1][..k] == s[..k];
      }
    }
  }

  method ReadOne(w: World, i: nat, name: string) returns (reply: Value)
    ensures reply == Read(w, i, name)
  {
    if name == "" {
      return Null;
    }
    var tags := w.tags(i);
    return if name in tags then TagMap(tags[name]) else Null;
  }

  method ReadMany(w: World, args: seq<string>) returns (reply: Value)
    ensures reply == Array(seq(|args|, i requires 0 <= i < |args| => Read(w, i, args[i])))
  {
    var items: seq<Value> := [];
    var i := 0;
    while i < |args|
      invariant i <= |args| && |items| == i && forall k :: 0 <= k < i ==> items[k] == Read(w, k, args[k])
    {
      var item := ReadOne(w, i, args[i]);
      items := items + [item];
      i := i + 1;
    }
    assert items == seq(|args|, i requires 0 <= i < |args| => Read(w, i, args[i]));
    reply := Array(items);
  }

  method AllFit(args: seq<string>, watch: bool) returns (fits: bool)
    ensures fits <==> forall a <- args :: if watch then IsConcrete(a) else IsValidPattern(a)
  {
    var i := 0;
    while i < |args|
      invariant i <= |args| && forall k :: 0 <= k < i ==> if watch then IsConcrete(args[k]) else IsValidPattern(args[k])
    {
      var ok;
      if watch {
        ok := CheckConcrete(args[i]);
      } else {
        ok := CheckPattern(args[i]);
      }
      if !ok {
        return false;
      }
      i := i + 1;
    }
    return true;
  }
}
