/** The frames the server sends, as a client reads them: every reply is taken for a reply, every push
    for a push, and what is lost on the way is said exactly. */
module ReplyFrames {
  import opened IrspValues
  import opened Irsp1Codec
  import opened Irsp1RoundTrip
  import opened Dispatchers
  import opened IrspServers

  predicate IsReplyFrame(frame: string) {
    var d := Decode(frame); d.status == Ok && !IsPush(d.value)
  }

  lemma DecodesBack(v: Value)
    requires Representable(v) && Encodable(v)
    ensures Decode(Encoding(v)).status == Ok && Decode(Encoding(v)).value == v
  {
    RoundTrip(v, []);
    assert Encoding(v) + [] == Encoding(v);
  }

  /** A text up to its first line break. */
  function FirstLine(text: string): string {
    text[..FindCrlf(text, 0)]
  }

  /** How a value looks to whoever decodes it: an error may lose text after a line break in its
      message, anything else arrives as it was sent. */
  function AsRead(v: Value): Value {
    if v.Error? then Error(v.code, FirstLine(v.message)) else v
  }

  lemma {:induction false} FirstCrlfIs(b: string, pos: nat, i: nat)
    requires pos <= i <= |b| && (i < |b| ==> CrlfAt(b, i)) && forall j :: pos <= j < i ==> !CrlfAt(b, j)
    ensures FindCrlf(b, pos) == i
    decreases i - pos
  {
    if pos < i {
      FirstCrlfIs(b, pos + 1, i);
    }
  }

  /** Before its first line break a text has none. */
  lemma NoneBefore(text: string)
    ensures var c := FindCrlf(text, 0); c <= |text| && (c < |text| ==> CrlfAt(text, c)) && forall j :: 0 <= j < c ==> !CrlfAt(text, j)
    ensures NoCrlf(text) <==> FindCrlf(text, 0) == |text|
  {
    forall j | 0 <= j < FindCrlf(text, 0)
      ensures !CrlfAt(text, j)
    {
      if CrlfAt(text, j) {
        FindCrlfIsFirst(text, 0, j);
      }
    }
  }

  /** A written line is cut where its own first line break is. */
  lemma CutLine(tag: char, line: string)
    ensures FindCrlf([tag] + line + CRLF, 1) == 1 + FindCrlf(line, 0)
  {
    var b, c := [tag] + line + CRLF, FindCrlf(line, 0);
    NoneBefore(line);
    forall j | 1 <= j < 1 + c
      ensures !CrlfAt(b, j)
    {
      assert !CrlfAt(line, j - 1) && b[j] == line[j - 1];
      assert j < |line| ==> b[j + 1] == line[j];
    }
    assert c < |line| ==> b[1 + c] == line[c] && b[2 + c] == line[c + 1];
    assert c == |line| ==> b[1 + c] == CRLF[0] && b[2 + c] == CRLF[1];
    FirstCrlfIs(b, 1, 1 + c);
  }

  /** Code, blank and message: the first line break is the message's. */
  lemma JoinedCut(code: string, message: string)
    requires NoCrlf(code)
    ensures FindCrlf(code + " " + message, 0) == |code| + 1 + FindCrlf(message, 0)
  {
    var line, c := code + " " + message, FindCrlf(message, 0);
    NoneBefore(message);
    forall j | 0 <= j < |code| + 1 + c
      ensures !CrlfAt(line, j)
    {
      if j < |code| {
        assert !CrlfAt(code, j) && line[j] == code[j];
        assert line[j + 1] == if j + 1 < |code| then code[j + 1] else ' ';
      } else if j > |code| {
        assert !CrlfAt(message, j - |code| - 1) && line[j] == message[j - |code| - 1];
        assert j + 1 < |line| ==> line[j + 1] == message[j - |code|];
      }
    }
    assert c < |message| ==> line[|code| + 1 + c] == message[c] && line[|code| + 2 + c] == message[c + 1];
    FirstCrlfIs(line, 0, |code| + 1 + c);
  }

  /** An error line split at its first blank. */
  lemma SplitLine(code: string, text: string)
    requires ' ' !in code
    ensures ErrorOf(code) == Error(code, []) && ErrorOf(code + " " + text) == Error(code, text)
  {
    assert code[..|code|] == code;
    IndexOfUnique(code, ' ', |code|);
    var line := code + " " + text;
    assert line[..|code|] == code && line[|code| + 1..] == text;
    IndexOfUnique(line, ' ', |code|);
  }

  /** A written error line is read up to its first line break. */
  lemma ErrorLineReads(line: string)
    ensures var d := Decode(['-'] + line + CRLF); d.status == Ok && d.value == ErrorOf(FirstLine(line))
  {
    var e, k := ['-'] + line + CRLF, FindCrlf(line, 0);
    CutLine('-', line);
    NoneBefore(line);
    assert e[1..1 + k] == line[..k];
    ParseByLine(e, 0, '-', line[..k], k + 3);
  }

  lemma FirstLineJoined(code: string, message: string)
    requires NoCrlf(code)
    ensures FirstLine(code) == code && FirstLine(code + " " + message) == code + " " + FirstLine(message)
  {
    NoneBefore(code);
    NoneBefore(message);
    assert code[..|code|] == code;
    JoinedCut(code, message);
    var c := FindCrlf(message, 0);
    assert (code + " " + message)[..|code| + 1 + c] == code + " " + message[..c];
  }

  function ErrorText(code: string, message: string): string {
    if message == [] then code else code + " " + message
  }

  lemma ErrorEncodingIs(code: string, message: string)
    ensures Encoding(Error(code, message)) == ['-'] + ErrorText(code, message) + CRLF
  {
    var tail := if message == [] then [] else " " + message;
    assert code + tail == ErrorText(code, message);
    assert "-" + code + tail == "-" + (code + tail);
  }

  lemma ErrorTextSplits(code: string, message: string)
    requires ' ' !in code && NoCrlf(code)
    ensures ErrorOf(FirstLine(ErrorText(code, message))) == Error(code, FirstLine(message))
  {
    FirstLineJoined(code, message);
    SplitLine(code, FirstLine(message));
  }

  /** An error whose code could not be confused with its message arrives with its code, and with its
      message up to the first line break. */
  lemma ErrorReads(code: string, message: string)
    requires ' ' !in code && NoCrlf(code)
    ensures var d := Decode(Encoding(Error(code, message))); d.status == Ok && d.value == AsRead(Error(code, message))
  {
    ErrorEncodingIs(code, message);
    ErrorLineReads(ErrorText(code, message));
    ErrorTextSplits(code, message);
  }

  /** The one reply that echoes raw request bytes arrives unchanged exactly when they hold no line
      break. */
  lemma EchoExact(raw: string)
    ensures Decode(Encoding(Error("UNKNOWN_COMMAND", raw))).value == Error("UNKNOWN_COMMAND", raw) <==> NoCrlf(raw)
  {
    ErrorReads("UNKNOWN_COMMAND", raw);
    NoneBefore(raw);
  }

  lemma {:induction false} BulksEncodable(items: seq<Value>)
    requires AllBulk(items)
    ensures EncodableAll(items)
  {
    if items != [] {
      assert items[0] in items;
      BulksEncodable(items[1..]);
    }
  }

  lemma TagMapEncodable(rec: TagRecord)
    ensures Encodable(TagMap(rec)) && Encodable(PushTag(rec))
  {
    FourFields("name", Bulk(rec.name), "type", Bulk(rec.tag), "ts", Integer(rec.ts), "value", Bulk(rec.value));
    assert PushTag(rec).entries == [Field("push", Bulk("tag"))] + TagMap(rec).entries;
    FieldFirst("push", Bulk("tag"), TagMap(rec).entries);
  }

  lemma FieldFirst(key: string, v: Value, rest: seq<Entry>)
    requires Encodable(v)
    ensures EncodableAll(Flatten(rest)) ==> EncodableAll(Flatten([Field(key, v)] + rest))
  {
    var all := [Field(key, v)] + rest;
    var f := Flatten(all);
    assert all[1..] == rest;
    assert f == [Bulk(key), v] + Flatten(rest);
    assert f[0] == Bulk(key) && f[1..][0] == v && f[1..][1..] == Flatten(rest);
    assert Encodable(Bulk(key));
    assert EncodableAll(f) <==> Encodable(f[0]) && EncodableAll(f[1..]);
    assert EncodableAll(f[1..]) <==> Encodable(f[1..][0]) && EncodableAll(f[1..][1..]);
  }

  lemma FourFields(k1: string, v1: Value, k2: string, v2: Value, k3: string, v3: Value, k4: string, v4: Value)
    requires Encodable(v1) && Encodable(v2) && Encodable(v3) && Encodable(v4)
    ensures EncodableAll(Flatten([Field(k1, v1), Field(k2, v2), Field(k3, v3), Field(k4, v4)]))
  {
    FieldFirst(k4, v4, []);
    assert [Field(k4, v4)] + [] == [Field(k4, v4)];
    FieldFirst(k3, v3, [Field(k4, v4)]);
    assert [Field(k3, v3)] + [Field(k4, v4)] == [Field(k3, v3), Field(k4, v4)];
    FieldFirst(k2, v2, [Field(k3, v3), Field(k4, v4)]);
    assert [Field(k2, v2)] + [Field(k3, v3), Field(k4, v4)] == [Field(k2, v2), Field(k3, v3), Field(k4, v4)];
    FieldFirst(k1, v1, [Field(k2, v2), Field(k3, v3), Field(k4, v4)]);
    assert [Field(k1, v1)] + [Field(k2, v2), Field(k3, v3), Field(k4, v4)]
        == [Field(k1, v1), Field(k2, v2), Field(k3, v3), Field(k4, v4)];
  }

  lemma HelloEncodable()
    ensures Encodable(HelloMap())
  {
    var rest := [Field("version", Bulk("1")), Field("encoding", Bulk("irsp1")), Field("transports", Bulk("websocket")),
                 Field("capabilities", Bulk("tag,event"))];
    FourFields("version", Bulk("1"), "encoding", Bulk("irsp1"), "transports", Bulk("websocket"),
               "capabilities", Bulk("tag,event"));
    FieldFirst("server", Bulk("industrial-runtime/1.0.0"), rest);
    assert HelloMap().entries == [Field("server", Bulk("industrial-runtime/1.0.0"))] + rest;
  }

  lemma EventEncodable(e: Event)
    ensures Encodable(PushEvent(e))
  {
    var four := [Field("category", Bulk(e.category)), Field("severity", Bulk(SeverityName(e.severity))),
                 Field("ts", Integer(e.ts)), Field("message", Bulk(e.message))];
    FourFields("category", Bulk(e.category), "severity", Bulk(SeverityName(e.severity)), "ts", Integer(e.ts),
               "message", Bulk(e.message));
    FieldFirst("source", Bulk(e.source), four);
    FieldFirst("push", Bulk("event"), [Field("source", Bulk(e.source))] + four);
    assert PushEvent(e).entries == [Field("push", Bulk("event"))] + ([Field("source", Bulk(e.source))] + four);
  }

  lemma {:induction false} AllEncodable(items: seq<Value>)
    requires forall v <- items :: Encodable(v)
    ensures EncodableAll(items)
  {
    if items != [] {
      assert items[0] in items;
      AllEncodable(items[1..]);
    }
  }

  lemma ReadEncodable(w: World, i: nat, name: string)
    ensures Encodable(Read(w, i, name))
  {
    if name in w.tags(i) {
      TagMapEncodable(w.tags(i)[name]);
    }
  }

  /** A value that arrives unchanged, or the echo of an unknown command. */
  ghost predicate Plain(v: Value, raw: string) {
    Encodable(v) || (v == Error("UNKNOWN_COMMAND", raw) && !NoCrlf(raw))
  }

  lemma ListEncodable(w: World, args: seq<string>)
    ensures Encodable(Array(seq(|args|, i requires 0 <= i < |args| => Read(w, i, args[i]))))
  {
    var items := seq(|args|, i requires 0 <= i < |args| => Read(w, i, args[i]));
    forall v | v in items ensures Encodable(v) {
      var i :| 0 <= i < |items| && items[i] == v;
      ReadEncodable(w, i, args[i]);
    }
    AllEncodable(items);
  }

  /** An error whose parts hold no carriage return, and no blank in its code, arrives unchanged. */
  lemma ErrorEncodable(code: string, message: string)
    requires ' ' !in code && '\r' !in code && '\r' !in message
    ensures Encodable(Error(code, message))
  {}

  // The program's fixed errors, each of which does.

  lemma ReadErrors()
    ensures Encodable(Error("WRONG_ARITY", "GET requires <topic>"))
    ensures Encodable(Error("WRONG_ARITY", "MGET requires <topic>..."))
    ensures Encodable(Error("WRONG_ARITY", "EXISTS requires <topic>"))
  {
    ErrorEncodable("WRONG_ARITY", "GET requires <topic>");
    ErrorEncodable("WRONG_ARITY", "MGET requires <topic>...");
    ErrorEncodable("WRONG_ARITY", "EXISTS requires <topic>");
  }

  lemma SetErrors()
    ensures Encodable(Error("WRONG_ARITY", "SET <topic> <type> <value>"))
    ensures Encodable(Error("NOT_IMPLEMENTED", "write-back not available"))
  {
    ErrorEncodable("WRONG_ARITY", "SET <topic> <type> <value>");
    ErrorEncodable("NOT_IMPLEMENTED", "write-back not available");
  }

  lemma WriteErrors()
    ensures Encodable(Error("NOT_FOUND", "no writer for topic"))
    ensures Encodable(Error("ERR", "write failed"))
  {
    ErrorEncodable("NOT_FOUND", "no writer for topic");
    ErrorEncodable("ERR", "write failed");
  }

  lemma AuthError()
    ensures Encodable(Error("NOT_IMPLEMENTED", "auth is reserved"))
  {
    ErrorEncodable("NOT_IMPLEMENTED", "auth is reserved");
  }

  lemma StreamError()
    ensures Encodable(Error("NOT_IMPLEMENTED", "stream subscription is reserved for V2"))
  {
    ErrorEncodable("NOT_IMPLEMENTED", "stream subscription is reserved for V2");
  }

  lemma ScanErrors()
    ensures Encodable(Error("WRONG_ARITY", "SCAN <cursor> <pattern> [COUNT <n>]"))
    ensures Encodable(Error("ERR", "expected COUNT <n>"))
    ensures Encodable(Error("ERR", "invalid scan pattern"))
  {
    ErrorEncodable("WRONG_ARITY", "SCAN <cursor> <pattern> [COUNT <n>]");
    ErrorEncodable("ERR", "expected COUNT <n>");
    ErrorEncodable("ERR", "invalid scan pattern");
  }

  lemma ArgumentErrors()
    ensures Encodable(Error("WRONG_ARITY", "WATCH requires <topic>..."))
    ensures Encodable(Error("WRONG_ARITY", "SUBSCRIBE requires <pattern>..."))
  {
    ErrorEncodable("WRONG_ARITY", "WATCH requires <topic>...");
    ErrorEncodable("WRONG_ARITY", "SUBSCRIBE requires <pattern>...");
  }

  lemma PatternErrors()
    ensures Encodable(Error("ERR", "WATCH requires concrete topics"))
    ensures Encodable(Error("ERR", "invalid subscribe pattern"))
    ensures Encodable(Error("ERR", "unknown severity"))
  {
    ErrorEncodable("ERR", "WATCH requires concrete topics");
    ErrorEncodable("ERR", "invalid subscribe pattern");
    ErrorEncodable("ERR", "unknown severity");
  }

  lemma HelloErrors()
    ensures Encodable(Error("WRONG_ARITY", "HELLO requires <version>"))
    ensures Encodable(Error("NOT_READY", "HELLO required first"))
  {
    ErrorEncodable("WRONG_ARITY", "HELLO requires <version>");
    ErrorEncodable("NOT_READY", "HELLO required first");
  }

  lemma VersionError()
    ensures Encodable(Error("UNSUPPORTED_VERSION", "only version 1 is supported"))
  {
    ErrorEncodable("UNSUPPORTED_VERSION", "only version 1 is supported");
  }

  lemma RequestErrors()
    ensures Encodable(Error("PROTOCOL_ERROR", "expected non-empty command array"))
    ensures Encodable(Error("PROTOCOL_ERROR", "command elements must be bulk strings"))
  {
    ErrorEncodable("PROTOCOL_ERROR", "expected non-empty command array");
    ErrorEncodable("PROTOCOL_ERROR", "command elements must be bulk strings");
  }

  lemma ReadAnswerPlain(w: World, raw: string, name: string, args: seq<string>)
    requires name == "GET" || name == "MGET" || name == "EXISTS"
    ensures Encodable(Answer(w, raw, name, args))
  {
    ReadErrors();
    ListEncodable(w, args);
    if args != [] {
      ReadEncodable(w, 0, args[0]);
    }
  }

  lemma SetAnswerPlain(w: World, raw: string, args: seq<string>)
    ensures Encodable(Answer(w, raw, "SET", args))
  {
    SetErrors();
    WriteErrors();
  }

  predicate Informs(name: string) {
    name == "GET" || name == "MGET" || name == "EXISTS" || name == "SET" || name == "SCAN"
  }

  lemma OtherAnswerPlain(w: World, raw: string, name: string, args: seq<string>)
    requires !Informs(name)
    ensures Plain(Answer(w, raw, name, args), raw)
  {
    AuthError();
    StreamError();
    EchoPlain(raw);
  }

  lemma EchoPlain(raw: string)
    ensures Plain(Error("UNKNOWN_COMMAND", raw), raw)
  {
    assert ' ' !in "UNKNOWN_COMMAND" && NoCrlf("UNKNOWN_COMMAND");
  }

  lemma AnswerPlain(w: World, raw: string, name: string, args: seq<string>)
    ensures Plain(Answer(w, raw, name, args), raw)
  {
    if name == "SCAN" {
      ScanEncodable(w, args);
    } else if name == "SET" {
      SetAnswerPlain(w, raw, args);
    } else if Informs(name) {
      ReadAnswerPlain(w, raw, name, args);
    } else {
      OtherAnswerPlain(w, raw, name, args);
    }
  }

  lemma PageEncodable(names: seq<string>, next: string)
    ensures Encodable(Array([Bulk(next), Array(Bulks(names))]))
  {
    var items := [Bulk(next), Array(Bulks(names))];
    BulksEncodable(Bulks(names));
    forall x | x in items ensures Encodable(x) {
      assert x == Bulk(next) || x == Array(Bulks(names));
    }
    AllEncodable(items);
  }

  lemma ScanEncodable(w: World, args: seq<string>)
    ensures Encodable(Scan(w, args))
  {
    ScanErrors();
    var v := Scan(w, args);
    if !v.Error? {
      var page := w.scan(args[0], args[1], if |args| == 4 then ParseCount(args[3]).value else 0);
      PageEncodable(page.0, page.1);
    }
  }

  lemma SubscriptionEncodable(subs: Subs, id: nat, name: string, args: seq<string>)
    requires Subscribes(name)
    ensures Encodable(Subscription(subs, id, name, args).1)
  {
    ArgumentErrors();
    PatternErrors();
  }

  lemma HelloReplyEncodable(subs: Subs, session: Session, args: seq<string>)
    ensures Encodable(Hello(subs, session, args).reply)
  {
    HelloErrors();
    VersionError();
    HelloEncodable();
  }

  lemma CommandPlain(w: World, subs: Subs, session: Session, items: seq<Value>)
    requires items != [] && AllBulk(items)
    ensures Plain(Respond(w, subs, session, Array(items)).reply, Texts(items)[0])
  {
    var parts := Texts(items);
    var name, args := Upper(parts[0]), parts[1..];
    HelloErrors();
    AnswerPlain(w, parts[0], name, args);
    HelloReplyEncodable(subs, session, args);
    if Subscribes(name) {
      SubscriptionEncodable(subs, session.id, name, args);
    }
  }

  /** What a request calls its command. */
  function CommandOf(request: Value): string {
    if request.Array? && request.items != [] && request.items[0].Bulk? then request.items[0].data else []
  }

  /** Every reply arrives as it was sent, but for the echo of an unknown command whose name holds a line
      break: that one keeps its code and the first line of the name. */
  lemma RespondPlain(w: World, subs: Subs, session: Session, request: Value)
    ensures Plain(Respond(w, subs, session, request).reply, CommandOf(request))
  {
    RequestErrors();
    if request.Array? && request.items != [] && AllBulk(request.items) {
      CommandPlain(w, subs, session, request.items);
    }
  }

  lemma PlainReads(v: Value, raw: string)
    requires Plain(v, raw) && Representable(v)
    ensures Decode(Encoding(v)).status == Ok && Decode(Encoding(v)).value == AsRead(v)
    ensures AsRead(v) != v ==> v == Error("UNKNOWN_COMMAND", raw) && !NoCrlf(raw)
  {
    if v.Error? {
      ErrorReads(v.code, v.message);
      NoneBefore(v.message);
      assert Encodable(v) ==> FirstLine(v.message) == v.message;
    } else {
      DecodesBack(v);
    }
  }

  /** Every reply frame is taken for a reply and read as that reply, complete unless it echoes an unknown
      command with a line break in its name. */
  lemma ReplyReads(w: World, subs: Subs, session: Session, request: Value)
    requires Representable(Respond(w, subs, session, request).reply)
    ensures var v := Respond(w, subs, session, request).reply;
      && IsReplyFrame(Encoding(v)) && Decode(Encoding(v)).value == AsRead(v)
      && (AsRead(v) == v <==> !(v == Error("UNKNOWN_COMMAND", CommandOf(request)) && !NoCrlf(CommandOf(request))))
  {
    var v := Respond(w, subs, session, request).reply;
    RespondPlain(w, subs, session, request);
    ReplyIsNoPush(w, subs, session, request);
    PlainReads(v, CommandOf(request));
    NoneBefore(CommandOf(request));
  }

  /** Every pushed frame is taken for a push. */
  lemma PushReads(v: Value)
    requires Representable(v) && ((exists rec :: v == PushTag(rec)) || (exists e :: v == PushEvent(e)))
    ensures !IsReplyFrame(Encoding(v)) && Decode(Encoding(v)).value == v && IsPush(v)
  {
    if rec :| v == PushTag(rec) {
      TagMapEncodable(rec);
      assert v.entries[0].key == Bulk("push");
    } else {
      var e :| v == PushEvent(e);
      EventEncodable(e);
      assert v.entries[0].key == Bulk("push");
    }
    DecodesBack(v);
  }
}
