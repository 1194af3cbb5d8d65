/** What the frames carry for whoever reads them: a tag's value comes out as the store holds it, an event's
    fields and the name of its severity as they were raised. */
module FrameContents {
  import opened Options
  import opened IrspValues
  import opened Irsp1Codec
  import opened Irsp1RoundTrip
  import opened Dispatchers
  import opened IrspServers
  import opened ReplyFrames
  import opened CommandLaws
  import opened TagEngines
  import Topics
  import SubscriptionIndex
  import CoreTagSource
  import VariantCodec

  /** A reader that looks the key up finds this value and no other. */
  predicate Carries(v: Value, key: string, x: Value) {
    && v.Map? && Entry(Bulk(key), x) in v.entries
    && forall e <- v.entries :: e.key == Bulk(key) ==> e.val == x
  }

  lemma CarriesOne(v: Value, key: string, x: Value, y: Value)
    requires Carries(v, key, x) && Carries(v, key, y)
    ensures x == y
  {
  }

  /** Name, type, time and bytes of a record, each under its own key. */
  ghost predicate CarriesRecord(v: Value, rec: TagRecord) {
    && Carries(v, "name", Bulk(rec.name)) && Carries(v, "type", Bulk(rec.tag))
    && Carries(v, "ts", Integer(rec.ts)) && Carries(v, "value", Bulk(rec.value))
  }

  /** A map whose i-th key is the i-th of these. */
  ghost predicate KeyedBy(v: Value, keys: seq<string>) {
    v.Map? && |v.entries| == |keys| && forall i :: 0 <= i < |keys| ==> v.entries[i].key == Bulk(keys[i])
  }

  ghost predicate AllDiffer(keys: seq<string>) {
    forall i, j :: 0 <= i < j < |keys| ==> keys[i] != keys[j]
  }

  lemma EachCarried(v: Value, keys: seq<string>, i: nat)
    requires KeyedBy(v, keys) && AllDiffer(keys) && i < |keys|
    ensures Carries(v, keys[i], v.entries[i].val)
  {
    assert v.entries[i] == Entry(Bulk(keys[i]), v.entries[i].val);
  }

  const RECORD_KEYS := ["name", "type", "ts", "value"]
  const TAG_KEYS := ["push", "name", "type", "ts", "value"]
  const EVENT_KEYS := ["push", "source", "category", "severity", "ts", "message"]

  lemma TagKeysDiffer()
    ensures AllDiffer(RECORD_KEYS) && AllDiffer(TAG_KEYS)
  {
    assert TAG_KEYS == ["push"] + RECORD_KEYS;
    assert "name"[0] == 'n' && "type"[0] == 't' && "push"[0] == 'p' && |"ts"| == 2 && |"value"| == 5;
  }

  lemma EventKeysDiffer()
    ensures AllDiffer(EVENT_KEYS)
  {
    assert |"push"| == 4 && |"source"| == 6 && |"ts"| == 2 && |"message"| == 7;
    assert "category"[0] == 'c' && "severity"[0] == 's';
  }

  lemma RecordFields(rec: TagRecord)
    ensures CarriesRecord(TagMap(rec), rec)
  {
    var v := TagMap(rec);
    TagKeysDiffer();
    assert KeyedBy(v, RECORD_KEYS);
    EachCarried(v, RECORD_KEYS, 0);
    EachCarried(v, RECORD_KEYS, 1);
    EachCarried(v, RECORD_KEYS, 2);
    EachCarried(v, RECORD_KEYS, 3);
  }

  lemma PushFields(rec: TagRecord)
    ensures CarriesRecord(PushTag(rec), rec) && Carries(PushTag(rec), "push", Bulk("tag"))
  {
    var v := PushTag(rec);
    TagKeysDiffer();
    assert KeyedBy(v, TAG_KEYS);
    EachCarried(v, TAG_KEYS, 0);
    EachCarried(v, TAG_KEYS, 1);
    EachCarried(v, TAG_KEYS, 2);
    EachCarried(v, TAG_KEYS, 3);
    EachCarried(v, TAG_KEYS, 4);
  }

  /** The tag as a client puts it together from the fields it reads: name, time and value. */
  ghost predicate TellsTag(v: Value, tag: TagValue)
    requires FitsInt64(tag.ts)
  {
    && Carries(v, "name", Bulk(tag.name)) && Carries(v, "ts", Integer(tag.ts))
    && exists t, b :: Carries(v, "type", Bulk(t)) && Carries(v, "value", Bulk(b)) && VariantCodec.ToVariant(t, b) == Some(tag.value)
  }

  lemma RecordTells(v: Value, tag: TagValue)
    requires VariantCodec.IsVariant(tag.value) && FitsInt64(tag.ts)
    requires CarriesRecord(v, CoreTagSource.RecordOf(tag))
    ensures TellsTag(v, tag)
  {
    CoreTagSource.RecordKeepsValue(tag);
  }

  /** A pushed frame, once decoded, tells the tag with the value the store holds. */
  lemma PushTellsTag(tag: TagValue)
    requires VariantCodec.IsVariant(tag.value) && FitsInt64(tag.ts)
    requires Representable(PushTag(CoreTagSource.RecordOf(tag)))
    ensures var v := Decode(Encoding(PushTag(CoreTagSource.RecordOf(tag)))).value;
      Carries(v, "push", Bulk("tag")) && TellsTag(v, tag)
  {
    var rec := CoreTagSource.RecordOf(tag);
    PushReads(PushTag(rec));
    PushFields(rec);
    RecordTells(PushTag(rec), tag);
  }

  /** So does the reply to a GET of a stored tag, in any capitalization; only the empty name is never
      read. */
  lemma GetTellsTag(w: World, subs: Subs, session: Session, raw: string, name: string, contents: map<string, TagValue>)
    requires session.hello && Upper(raw) == "GET"
    requires CoreTagSource.InRange(contents) && w.tags(0) == CoreTagSource.StoreOf(contents)
    requires Representable(Sent(w, subs, session, raw, [name]).reply)
    ensures var v := Decode(Encoding(Sent(w, subs, session, raw, [name]).reply)).value;
      if name != "" && name in contents then TellsTag(v, contents[name]) else v == Null
  {
    SentInform(w, subs, session, raw, [name]);
    var reply := Sent(w, subs, session, raw, [name]).reply;
    ReadEncodable(w, 0, name);
    DecodesBack(reply);
    if name != "" && name in contents {
      var rec := CoreTagSource.RecordOf(contents[name]);
      assert reply == TagMap(rec);
      RecordFields(rec);
      RecordTells(reply, contents[name]);
    }
  }

  /** Severities count up from "info"; an unknown one is told as "info". */
  lemma SeverityNamed(severity: nat)
    ensures SeverityName(severity) == if severity < |SEVERITIES| then SEVERITIES[severity] else "info"
  {
  }

  ghost predicate TellsEvent(v: Value, e: Event) {
    && Carries(v, "push", Bulk("event")) && Carries(v, "source", Bulk(e.source)) && Carries(v, "category", Bulk(e.category))
    && Carries(v, "severity", Bulk(if e.severity < |SEVERITIES| then SEVERITIES[e.severity] else "info"))
    && Carries(v, "ts", Integer(e.ts)) && Carries(v, "message", Bulk(e.message))
  }

  lemma EventFields(e: Event)
    ensures TellsEvent(PushEvent(e), e)
  {
    var v := PushEvent(e);
    SeverityNamed(e.severity);
    EventKeysDiffer();
    assert KeyedBy(v, EVENT_KEYS);
    EachCarried(v, EVENT_KEYS, 0);
    EachCarried(v, EVENT_KEYS, 1);
    EachCarried(v, EVENT_KEYS, 2);
    EachCarried(v, EVENT_KEYS, 3);
    EachCarried(v, EVENT_KEYS, 4);
    EachCarried(v, EVENT_KEYS, 5);
  }

  /** A pushed event, once decoded, tells its source, category, severity by name, time and message. */
  lemma PushTellsEvent(e: Event)
    requires Representable(PushEvent(e))
    ensures TellsEvent(Decode(Encoding(PushEvent(e))).value, e)
  {
    PushReads(PushEvent(e));
    EventFields(e);
  }

  /** One frame more, the last, for exactly these connections. */
  ghost predicate OneMoreFor(a: Server, b: Server, id: nat, due: bool, frame: string) {
    && b.subs == a.subs && b.conns.Keys == a.conns.Keys
    && (id in a.conns ==> b.conns[id] == if due then a.conns[id].(outbox := a.conns[id].outbox + [frame]) else a.conns[id])
  }

  lemma EnqueuedFor(s: Server, ids: set<nat>, frame: string, id: nat)
    ensures OneMoreFor(s, s.(conns := Enqueue(s.conns, ids, frame)), id, id in ids, frame)
  {
  }

  ghost predicate HasPatternFor(s: Server, id: nat, topic: string) {
    exists p: string :: (p, id) in s.subs.ix.entries && Topics.Matches(p, topic)
  }

  /** A change of a tag puts one frame that tells it at the end of the queue of each connection with a
      pattern that matches its name, and nothing anywhere else. */
  lemma ChangeIsTold(s: Server, tag: TagValue, id: nat) returns (frame: string)
    requires VariantCodec.IsVariant(tag.value) && FitsInt64(tag.ts)
    requires Representable(PushTag(CoreTagSource.RecordOf(tag)))
    ensures OneMoreFor(s, Step(s, TagChanged(tag.name, Some(CoreTagSource.RecordOf(tag)))), id, HasPatternFor(s, id, tag.name), frame)
    ensures !IsReplyFrame(frame) && TellsTag(Decode(frame).value, tag)
  {
    frame := TagFrame(tag);
    TagQueued(s, CoreTagSource.RecordOf(tag), id, frame);
  }

  /** The frame a change is pushed in. */
  lemma TagFrame(tag: TagValue) returns (frame: string)
    requires VariantCodec.IsVariant(tag.value) && FitsInt64(tag.ts)
    requires Representable(PushTag(CoreTagSource.RecordOf(tag)))
    ensures frame == Encoding(PushTag(CoreTagSource.RecordOf(tag)))
    ensures !IsReplyFrame(frame) && TellsTag(Decode(frame).value, tag)
  {
    frame := Encoding(PushTag(CoreTagSource.RecordOf(tag)));
    PushTellsTag(tag);
    PushReads(PushTag(CoreTagSource.RecordOf(tag)));
  }

  lemma TagQueued(s: Server, rec: TagRecord, id: nat, frame: string)
    requires frame == Encoding(PushTag(rec))
    ensures OneMoreFor(s, Step(s, TagChanged(rec.name, Some(rec))), id, HasPatternFor(s, id, rec.name), frame)
  {
    ToldByEntries(s.subs.ix, rec.name, id);
    EnqueuedFor(s, SubscriptionIndex.MatchSet(s.subs.ix, rec.name), frame, id);
  }

  predicate Listens(s: Server, id: nat, e: Event) {
    && id in s.subs.events && s.subs.events[id].minRank <= e.severity
    && (s.subs.events[id].category == "" || s.subs.events[id].category == e.category)
  }

  /** An event puts one frame that tells it at the end of the queue of each connection whose filter lets it
      through, and nothing anywhere else. */
  lemma EventIsTold(s: Server, e: Event, id: nat) returns (frame: string)
    requires Representable(PushEvent(e))
    ensures OneMoreFor(s, Step(s, EventRaised(e)), id, Listens(s, id, e), frame)
    ensures !IsReplyFrame(frame) && TellsEvent(Decode(frame).value, e)
  {
    frame := EventFrame(e);
    EventQueued(s, e, id, frame);
  }

  lemma EventFrame(e: Event) returns (frame: string)
    requires Representable(PushEvent(e))
    ensures frame == Encoding(PushEvent(e)) && !IsReplyFrame(frame) && TellsEvent(Decode(frame).value, e)
  {
    frame := Encoding(PushEvent(e));
    PushTellsEvent(e);
    PushReads(PushEvent(e));
  }

  lemma EventQueued(s: Server, e: Event, id: nat, frame: string)
    requires frame == Encoding(PushEvent(e))
    ensures OneMoreFor(s, Step(s, EventRaised(e)), id, Listens(s, id, e), frame)
  {
    EnqueuedFor(s, Listeners(s.subs.events, e.severity, e.category), frame, id);
  }

  /** A session that asks for events of some severity is told of this event exactly when the name the push
      carries comes no earlier in the order. */
  lemma AskedByName(w: World, subs: Subs, session: Session, raw: string, least: nat, e: Event)
    requires session.hello && Upper(raw) == "SUBEVENT" && least < |SEVERITIES| && e.severity < |SEVERITIES|
    ensures var after := Sent(w, subs, session, raw, [SEVERITIES[least]]).subs;
      session.id in Listeners(after.events, e.severity, e.category) <==> least <= e.severity
  {
    SubeventTells(w, subs, session, raw, [SEVERITIES[least]], e.severity, e.category, session.id);
    RankIsPlace(SEVERITIES[least], least);
    if k: nat :| k < |SEVERITIES| && SEVERITIES[k] == SEVERITIES[least] {
      RankIsPlace(SEVERITIES[least], k);
    }
  }
}
