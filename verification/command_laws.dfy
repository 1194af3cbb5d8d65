/** What each command means for the session that sends it and for everybody else, said about the reply and
    the subscriptions after the request. */
module CommandLaws {
  import opened Options
  import opened IrspValues
  import opened Topics
  import opened SubscriptionIndex
  import opened RingArithmetic
  import opened Dispatchers

  /** What a session's request comes to: a command, spelled in any capitalization, with its arguments. */
  ghost function Sent(w: World, subs: Subs, session: Session, raw: string, args: seq<string>): Outcome {
    Respond(w, subs, session, Array(Bulks([raw] + args)))
  }

  lemma SentSubscription(w: World, subs: Subs, session: Session, raw: string, args: seq<string>)
    requires session.hello && Subscribes(Upper(raw))
    ensures var r := Subscription(subs, session.id, Upper(raw), args);
      Sent(w, subs, session, raw, args) == Outcome(r.0, session, r.1, false)
  {
    var items := Bulks([raw] + args);
    assert AllBulk(items) && Texts(items) == [raw] + args && ([raw] + args)[1..] == args;
  }

  lemma SentInform(w: World, subs: Subs, session: Session, raw: string, args: seq<string>)
    requires session.hello && !Subscribes(Upper(raw)) && Upper(raw) != "HELLO"
    ensures Sent(w, subs, session, raw, args) ==
      Outcome(subs, session, Answer(w, raw, Upper(raw), args), Writes(w, Upper(raw), args))
  {
    var items := Bulks([raw] + args);
    assert AllBulk(items) && Texts(items) == [raw] + args && ([raw] + args)[1..] == args;
  }

  // ---- Tag subscriptions ----

  predicate Adds(name: string) {
    name == "WATCH" || name == "SUBSCRIBE"
  }

  predicate Drops(name: string) {
    name == "UNWATCH" || name == "UNSUBSCRIBE"
  }

  /** WATCH takes topics, SUBSCRIBE patterns. */
  predicate Fits(name: string, arg: string) {
    if name == "WATCH" then IsConcrete(arg) else IsValidPattern(arg)
  }

  function Elements(args: seq<string>): set<string> {
    set a | a in args
  }

  lemma ElementsMore(rest: seq<string>, last: string)
    ensures Elements(rest + [last]) == Elements(rest) + {last}
  {
  }

  lemma {:induction false} RememberedAfterAdding(ix: Index, args: seq<string>, id: nat)
    requires AllValid(args)
    ensures Pats(SubscribeEach(ix, args, id), id) == Pats(ix, id) + Elements(args)
  {
    if args != [] {
      var last, rest := args[|args| - 1], args[..|args| - 1];
      assert args == rest + [last];
      assert forall a <- rest :: a in args;
      RememberedAfterAdding(ix, rest, id);
      ElementsMore(rest, last);
    }
  }

  /** The patterns remembered for a subscriber that these do not name, or that have no entry any more. */
  function Left(ix: Index, args: seq<string>, id: nat): set<string> {
    set p | p in Pats(ix, id) && !(p in args && (p, id) in ix.entries)
  }

  lemma LeftMore(ix: Index, r: Index, rest: seq<string>, last: string, id: nat)
    requires Pats(r, id) == Left(ix, rest, id) && IsValidPattern(last)
    requires forall p: string :: (p, id) in r.entries <==> (p, id) in ix.entries && p !in rest
    ensures Pats(Unsubscribe(r, last, id), id) == Left(ix, rest + [last], id)
    ensures forall p: string :: (p, id) in Unsubscribe(r, last, id).entries <==> (p, id) in ix.entries && p !in rest + [last]
  {
    UnsubscribeOwn(r, last, id);
    WalkedValid(last);
    assert forall p: string :: p in rest + [last] <==> p in rest || p == last;
  }

  lemma {:induction false} RememberedAfterDropping(ix: Index, args: seq<string>, id: nat)
    requires AllValid(args)
    ensures Pats(UnsubscribeEach(ix, args, id), id) == Left(ix, args, id)
    ensures forall p: string :: (p, id) in UnsubscribeEach(ix, args, id).entries <==> (p, id) in ix.entries && p !in args
  {
    if args == [] {
      assert Left(ix, [], id) == Pats(ix, id);
    } else {
      var last, rest := args[|args| - 1], args[..|args| - 1];
      assert args == rest + [last];
      assert forall a <- rest :: a in args;
      RememberedAfterDropping(ix, rest, id);
      LeftMore(ix, UnsubscribeEach(ix, rest, id), rest, last, id);
    }
  }

  /** What the sender's entries and the others' say about who is told. */
  lemma ToldByEntries(ix: Index, topic: string, who: nat)
    ensures who in MatchSet(ix, topic) <==> exists p: string :: (p, who) in ix.entries && Matches(p, topic)
  {
    if who in MatchSet(ix, topic) {
      var e :| e in ix.entries && Matches(e.0, topic) && e.1 == who;
      assert e == (e.0, who);
    }
  }

  lemma OthersTold(a: Index, b: Index, id: nat, topic: string, who: nat)
    requires SameOthers(a, b, id) && who != id
    ensures who in MatchSet(a, topic) <==> who in MatchSet(b, topic)
  {
    ToldByEntries(a, topic, who);
    ToldByEntries(b, topic, who);
    assert forall p: string :: (p, who) in a.entries <==> (p, who) in b.entries;
  }

  lemma CountSmall(ix: Index, id: nat, pats: set<string>)
    requires Pats(ix, id) == pats && |pats| < HALF
    ensures CountReply(ix, id) == Integer(|pats|)
  {
    assert |pats| % WORD == |pats|;
  }

  lemma AddingIs(subs: Subs, id: nat, name: string, args: seq<string>, more: Index)
    requires Adds(name) && more == SubscribeEach(subs.ix, args, id)
    ensures var r := Subscription(subs, id, name, args);
      if args == [] || exists a <- args :: !Fits(name, a) then r.0 == subs && r.1.Error?
      else r == (subs.(ix := more), CountReply(more, id))
  {
  }

  lemma DroppingIs(subs: Subs, id: nat, name: string, args: seq<string>, fewer: Index)
    requires Drops(name) && args != [] && fewer == UnsubscribeEach(subs.ix, args, id)
    ensures Subscription(subs, id, name, args) == (subs.(ix := fewer), CountReply(fewer, id))
  {
  }

  /** WATCH and SUBSCRIBE are refused exactly when there is no argument or one does not fit.  Otherwise the
      patterns remembered are those before and the arguments, and the reply is how many that are. */
  lemma AddingRemembers(w: World, subs: Subs, session: Session, raw: string, args: seq<string>)
    requires session.hello && Adds(Upper(raw))
    ensures var r := Sent(w, subs, session, raw, args);
      && (r.reply.Error? <==> args == [] || exists a <- args :: !Fits(Upper(raw), a))
      && (!r.reply.Error? ==>
            && Pats(r.subs.ix, session.id) == Pats(subs.ix, session.id) + Elements(args)
            && (|Pats(subs.ix, session.id) + Elements(args)| < HALF ==>
                  r.reply == Integer(|Pats(subs.ix, session.id) + Elements(args)|)))
  {
    var id, more := session.id, SubscribeEach(subs.ix, args, session.id);
    SentSubscription(w, subs, session, raw, args);
    AddingIs(subs, id, Upper(raw), args, more);
    if args != [] && forall a <- args :: Fits(Upper(raw), a) {
      assert AllValid(args);
      RememberedAfterAdding(subs.ix, args, id);
      if |Pats(more, id)| < HALF {
        CountSmall(more, id, Pats(more, id));
      }
    }
  }

  /** A topic covers itself and no other topic. */
  lemma ConcreteMatches(pattern: string, topic: string)
    requires IsConcrete(pattern)
    ensures Matches(pattern, topic) <==> topic == pattern
  {
    if Matches(pattern, topic) {
      var p, t := Split(pattern), Split(topic);
      assert Literal(p[|p| - 1]);
      forall i | 0 <= i < |p|
        ensures p[i] == t[i]
      {
        assert Literal(p[i]) && LevelMatches(p[i], t[i]);
      }
      assert p == t;
      SplitInjective(pattern, topic);
    }
  }

  /** After a WATCH of topics exactly those told about a topic before are told, and the sender if it is one
      of them. */
  lemma WatchTells(w: World, subs: Subs, session: Session, raw: string, args: seq<string>, topic: string, who: nat)
    requires session.hello && Upper(raw) == "WATCH" && args != [] && forall a <- args :: IsConcrete(a)
    ensures var after := Sent(w, subs, session, raw, args).subs;
      who in MatchSet(after.ix, topic) <==> who in MatchSet(subs.ix, topic) || (who == session.id && topic in args)
  {
    SentSubscription(w, subs, session, raw, args);
    assert AllValid(args);
    EachEntries(subs.ix, args, session.id);
    AddedMatches(subs.ix, SubscribeEach(subs.ix, args, session.id), args, session.id, topic, who);
    if a :| a in args && Matches(a, topic) {
      ConcreteMatches(a, topic);
    }
    if topic in args {
      ConcreteMatches(topic, topic);
    }
  }

  /** UNWATCH and UNSUBSCRIBE of valid patterns: the sender is told about a topic exactly when one of its
      patterns that is not among the arguments matches it, and everybody else as before. */
  lemma DroppingTells(w: World, subs: Subs, session: Session, raw: string, args: seq<string>, topic: string, who: nat)
    requires Sound(subs.ix) && session.hello && Drops(Upper(raw)) && args != [] && forall a <- args :: IsValidPattern(a)
    ensures var after := Sent(w, subs, session, raw, args).subs;
      who in MatchSet(after.ix, topic) <==>
        if who == session.id then exists p: string :: (p, who) in subs.ix.entries && p !in args && Matches(p, topic)
        else who in MatchSet(subs.ix, topic)
  {
    var id, after := session.id, UnsubscribeEach(subs.ix, args, session.id);
    SentSubscription(w, subs, session, raw, args);
    if who == id {
      assert AllValid(args);
      RememberedAfterDropping(subs.ix, args, id);
      ToldByEntries(after, topic, id);
    } else {
      EachIsOwn(subs.ix, args, id);
      OthersTold(subs.ix, after, id, topic, who);
    }
  }

  /** They are never refused.  Of the patterns remembered for the sender those remain that are not among the
      arguments, as long as nothing had been orphaned; and the reply is how many that are. */
  lemma DroppingRemembers(w: World, subs: Subs, session: Session, raw: string, args: seq<string>)
    requires Exact(subs.ix) && session.hello && Drops(Upper(raw)) && args != [] && forall a <- args :: IsValidPattern(a)
    ensures var r := Sent(w, subs, session, raw, args); var left := Pats(subs.ix, session.id) - Elements(args);
      Pats(r.subs.ix, session.id) == left && (|left| < HALF ==> r.reply == Integer(|left|))
  {
    var id, fewer := session.id, UnsubscribeEach(subs.ix, args, session.id);
    SentSubscription(w, subs, session, raw, args);
    DroppingIs(subs, id, Upper(raw), args, fewer);
    assert AllValid(args);
    RememberedAfterDropping(subs.ix, args, id);
    assert Left(subs.ix, args, id) == Pats(subs.ix, id) - Elements(args);
    if |Pats(fewer, id)| < HALF {
      CountSmall(fewer, id, Pats(fewer, id));
    }
  }

  /** Without arguments the sender is told about nothing any more, and the reply is 0 exactly when no pattern
      had been orphaned. */
  lemma DroppingAll(w: World, subs: Subs, session: Session, raw: string, topic: string, who: nat)
    requires Sound(subs.ix) && session.hello && Drops(Upper(raw))
    requires |Pats(subs.ix, session.id)| < HALF
    ensures var r := Sent(w, subs, session, raw, []);
      && (who in MatchSet(r.subs.ix, topic) <==> who != session.id && who in MatchSet(subs.ix, topic))
      && (r.reply == Integer(0) <==> forall p <- Pats(subs.ix, session.id) :: (p, session.id) in subs.ix.entries)
  {
    var id, after := session.id, UnsubscribeAll(subs.ix, session.id);
    SentSubscription(w, subs, session, raw, []);
    UnsubscribeAllSilences(subs.ix, id, who, topic);
    UnsubscribeAllOwn(subs.ix, id);
    LeftoverCount(subs.ix, id);
    Smaller(Pats(after, id), Pats(subs.ix, id));
  }

  lemma {:induction false} Smaller(a: set<string>, b: set<string>)
    requires a <= b
    ensures |a| <= |b|
  {
    if a != {} {
      var x :| x in a;
      Smaller(a - {x}, b - {x});
    }
  }

  // ---- Event subscriptions ----

  const SEVERITIES := ["info", "warning", "alarm", "critical"]

  /** A severity's rank is its place in this order; nothing else is a severity. */
  lemma RankIsPlace(s: string, rank: nat)
    ensures SeverityRank(s) == Some(rank) <==> rank < |SEVERITIES| && SEVERITIES[rank] == s
  {
  }

  /** SUBEVENT is refused exactly when its first argument is no severity.  Otherwise the sender is told of an
      event exactly when that is at least as severe as asked and, if a category was given, of that category;
      an earlier SUBEVENT no longer counts.  Everybody else is told as before. */
  lemma SubeventTells(w: World, subs: Subs, session: Session, raw: string, args: seq<string>, rank: nat, category: string, who: nat)
    requires session.hello && Upper(raw) == "SUBEVENT"
    ensures var r := Sent(w, subs, session, raw, args);
      && (r.reply.Error? <==> args != [] && args[0] !in SEVERITIES)
      && (!r.reply.Error? ==>
            && r.reply == Integer(1)
            && (who in Listeners(r.subs.events, rank, category) <==>
                  if who == session.id then
                    && (args == [] || exists least :: 0 <= least <= rank && least < 4 && SEVERITIES[least] == args[0])
                    && (|args| < 2 || args[1] == "" || args[1] == category)
                  else who in Listeners(subs.events, rank, category)))
  {
    SentSubscription(w, subs, session, raw, args);
    if args != [] {
      assert forall k: nat {:trigger SEVERITIES[k]} :: k < 4 ==> (SEVERITIES[k] == args[0] <==> SeverityRank(args[0]) == Some(k));
    }
  }

  /** After UNSUBEVENT the sender is told of no event, and everybody else of the same ones. */
  lemma UnsubeventSilences(w: World, subs: Subs, session: Session, raw: string, args: seq<string>, rank: nat, category: string, who: nat)
    requires session.hello && Upper(raw) == "UNSUBEVENT"
    ensures var r := Sent(w, subs, session, raw, args);
      && r.reply == Integer(0)
      && (who in Listeners(r.subs.events, rank, category) <==> who != session.id && who in Listeners(subs.events, rank, category))
  {
    SentSubscription(w, subs, session, raw, args);
  }

  // ---- Which requests are refused ----

  const COMMANDS := {"HELLO", "PING", "BYE", "AUTH", "GET", "MGET", "EXISTS", "SCAN", "WATCH", "SUBSCRIBE", "UNWATCH",
                     "UNSUBSCRIBE", "SUBEVENT", "UNSUBEVENT", "SET", "SUBSTREAM", "UNSUBSTREAM"}

  /** How many arguments a command takes. */
  predicate Takes(name: string, n: nat) {
    match name
    case "HELLO" => n >= 1
    case "GET" => n == 1
    case "MGET" => n >= 1
    case "EXISTS" => n == 1
    case "SCAN" => n == 2 || n == 4
    case "WATCH" => n >= 1
    case "SUBSCRIBE" => n >= 1
    case "SET" => n == 3
    case _ => true
  }

  predicate Refused(v: Value, code: string) {
    v.Error? && v.code == code
  }

  lemma AnswerRefused(w: World, raw: string, name: string, args: seq<string>)
    requires !Subscribes(name) && name != "HELLO"
    ensures var v := Answer(w, raw, name, args);
      && !Refused(v, "NOT_READY") && (Refused(v, "UNKNOWN_COMMAND") <==> name !in COMMANDS)
      && (Refused(v, "WRONG_ARITY") <==> !Takes(name, |args|))
  {
  }

  lemma SubscriptionRefused(subs: Subs, id: nat, name: string, args: seq<string>)
    requires Subscribes(name)
    ensures var v := Subscription(subs, id, name, args).1;
      && !Refused(v, "NOT_READY") && !Refused(v, "UNKNOWN_COMMAND") && (Refused(v, "WRONG_ARITY") <==> !Takes(name, |args|))
  {
    if Adds(name) {
      AddingRefused(subs, id, name, args);
    }
  }

  lemma AddingRefused(subs: Subs, id: nat, name: string, args: seq<string>)
    requires Adds(name)
    ensures var v := Subscription(subs, id, name, args).1;
      !Refused(v, "NOT_READY") && !Refused(v, "UNKNOWN_COMMAND") && (Refused(v, "WRONG_ARITY") <==> args == [])
  {
  }

  /** A command is refused as unknown exactly when it is none of the list, in any capitalization; for the
      number of its arguments exactly when it does not take so many; and as coming too early exactly when it
      is not HELLO and HELLO has not been said. */
  lemma RefusedWhen(w: World, subs: Subs, session: Session, raw: string, args: seq<string>)
    ensures var v := Sent(w, subs, session, raw, args).reply; var name := Upper(raw);
      && (Refused(v, "NOT_READY") <==> !session.hello && name != "HELLO")
      && (Refused(v, "UNKNOWN_COMMAND") <==> session.hello && name !in COMMANDS)
      && (Refused(v, "WRONG_ARITY") <==> (session.hello || name == "HELLO") && !Takes(name, |args|))
  {
    var items := Bulks([raw] + args);
    assert AllBulk(items) && Texts(items) == [raw] + args && ([raw] + args)[1..] == args;
    if Subscribes(Upper(raw)) {
      SubscriptionRefused(subs, session.id, Upper(raw), args);
    } else if Upper(raw) != "HELLO" {
      AnswerRefused(w, raw, Upper(raw), args);
    }
  }

  /** A request that is not a non-empty array of bulk strings, and only such a one, is a protocol error. */
  lemma ProtocolErrorIff(w: World, subs: Subs, session: Session, request: Value)
    ensures Refused(Respond(w, subs, session, request).reply, "PROTOCOL_ERROR") <==>
            !(request.Array? && request.items != [] && forall v <- request.items :: v.Bulk?)
  {
    if request.Array? && request.items != [] && AllBulk(request.items) {
      var parts := Texts(request.items);
      NoProtocolError(w, subs, session, parts[0], Upper(parts[0]), parts[1..]);
    }
  }

  lemma NoProtocolError(w: World, subs: Subs, session: Session, raw: string, name: string, args: seq<string>)
    ensures !Refused(Answer(w, raw, name, args), "PROTOCOL_ERROR") && !Refused(Hello(subs, session, args).reply, "PROTOCOL_ERROR")
    ensures Subscribes(name) ==> !Refused(Subscription(subs, session.id, name, args).1, "PROTOCOL_ERROR")
  {
  }

  /** A number printed in decimal is understood as that number. */
  lemma CountUnderstood(n: nat)
    requires n < WORD
    ensures ParseCount(Decimal(n)) == Some(n)
  {
    NumeralOfDecimal(n);
  }

  /** SCAN with a valid pattern asks for the page at this cursor, with this pattern and as many names as COUNT
      says or 0 without it, and replies with the next cursor first and then the names in order. */
  lemma ScanTells(w: World, subs: Subs, session: Session, raw: string, cursor: string, pattern: string, count: Option<nat>, word: string)
    requires session.hello && Upper(raw) == "SCAN" && IsValidPattern(pattern)
    requires Upper(word) == "COUNT" && (count.Some? ==> count.value < WORD)
    ensures var args := [cursor, pattern] + if count.Some? then [word, Decimal(count.value)] else [];
      var v := Sent(w, subs, session, raw, args).reply;
      var (names, next) := w.scan(cursor, pattern, if count.Some? then count.value else 0);
      && v.Array? && |v.items| == 2 && v.items[0] == Bulk(next) && v.items[1].Array? && |v.items[1].items| == |names|
      && forall i :: 0 <= i < |names| ==> v.items[1].items[i] == Bulk(names[i])
  {
    var args := [cursor, pattern] + if count.Some? then [word, Decimal(count.value)] else [];
    SentInform(w, subs, session, raw, args);
    if count.Some? {
      CountUnderstood(count.value);
      assert args[2] == word && args[3] == Decimal(count.value);
    }
    assert args[0] == cursor && args[1] == pattern;
  }

  /** PING comes back with what it carried. */
  lemma PingEchoes(w: World, subs: Subs, session: Session, raw: string, args: seq<string>)
    requires session.hello && Upper(raw) == "PING"
    ensures Sent(w, subs, session, raw, args).reply == if args == [] then Simple("PONG") else Bulk(args[0])
  {
    SentInform(w, subs, session, raw, args);
  }

  /** HELLO is accepted exactly for version 1; from then on, and only then, the session may do more. */
  lemma HelloIff(w: World, subs: Subs, session: Session, raw: string, args: seq<string>)
    requires Upper(raw) == "HELLO"
    ensures var r := Sent(w, subs, session, raw, args);
      && (r.reply.Error? <==> args == [] || args[0] != "1") && r.subs == subs
      && (r.session.hello <==> session.hello || (args != [] && args[0] == "1"))
  {
    var items := Bulks([raw] + args);
    assert AllBulk(items) && Texts(items) == [raw] + args && ([raw] + args)[1..] == args;
  }
}
