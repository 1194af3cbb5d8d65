/** Write-back: a SET's bytes become a value, which goes to the plugin with the longest prefix of the
    tag's name. */
module CoreTagWriters {
  import opened Options
  import opened PluginHosts
  import opened Dispatchers
  import IrspValues
  import VariantCodec

  /** What plugins' handlers do with a value; an exception counts as a refusal. */
  type Handlers = (Reg, VariantCodec.Variant) -> bool

  /** The plugin in charge of a name takes the value. */
  ghost predicate PluginTakes(ws: seq<Reg>, accepts: Handlers, name: string, v: VariantCodec.Variant) {
    exists reg :: Longest(ws, name, reg) && accepts(reg, v)
  }

  ghost function Written(ws: seq<Reg>, accepts: Handlers, name: string, tag: string, bytes: string): WriteResult {
    var v := VariantCodec.ToVariant(tag, bytes);
    if v.None? then Failed
    else
      var r := Route(ws, name);
      if r.Some? && accepts(r.value, v.value) then Accepted else NotHandled
  }

  /** Counts the call in, calls the handler the name is routed to, and counts the call out. */
  method HostWrite(host: PluginHost, accepts: (string, nat, VariantCodec.Variant) -> bool, name: string, v: VariantCodec.Variant)
    returns (accepted: bool)
    requires host.Valid()
    modifies set reg <- host.writers :: reg.owner
    ensures host.Valid()
    ensures var r := Route(View(host.writers), name); accepted <==> r.Some? && accepts(r.value.prefix, r.value.lib, v)
    ensures forall reg <- host.writers :: reg.owner.inflight == old(reg.owner.inflight)
  {
    var chosen := host.BeginWrite(name);
    if chosen.None? {
      return false;
    }
    accepted := accepts(chosen.value.prefix, chosen.value.lib, v);
    host.EndWrite(chosen.value.owner);
  }

  /** `handler` tells that the runtime has been given the host's write as its handler. */
  method WriteTag(host: PluginHost, handler: bool, accepts: (string, nat, VariantCodec.Variant) -> bool,
                  name: string, tag: string, bytes: string) returns (result: WriteResult)
    requires host.Valid()
    modifies set reg <- host.writers :: reg.owner
    ensures host.Valid()
    ensures result == if handler || VariantCodec.ToVariant(tag, bytes).None?
                      then Written(View(host.writers), (reg: Reg, v) => accepts(reg.prefix, reg.lib, v), name, tag, bytes)
                      else NotHandled
    ensures forall reg <- host.writers :: reg.owner.inflight == old(reg.owner.inflight)
  {
    var v := VariantCodec.ToVariant(tag, bytes);
    if v.None? {
      return Failed;
    }
    var accepted := false;
    if handler {
      accepted := HostWrite(host, accepts, name, v.value);
    }
    return if accepted then Accepted else NotHandled;
  }

  // ---- What SET means for a client ----

  ghost function Exit(ws: seq<Reg>, accepts: Handlers): (string, string, string) -> WriteResult {
    (name, tag, bytes) => Written(ws, accepts, name, tag, bytes)
  }

  lemma RouteIsLongest(ws: seq<Reg>, name: string)
    requires Distinct(ws)
    ensures forall reg :: Longest(ws, name, reg) <==> Route(ws, name) == Some(reg)
  {
    forall reg | Longest(ws, name, reg)
      ensures Route(ws, name) == Some(reg)
    {
      LongestUnique(ws, name, reg, Route(ws, name).value);
    }
  }

  lemma WrittenIff(ws: seq<Reg>, accepts: Handlers, name: string, tag: string, bytes: string)
    requires Distinct(ws)
    ensures var v, r := VariantCodec.ToVariant(tag, bytes), Written(ws, accepts, name, tag, bytes);
      && (r.Failed? <==> v.None?)
      && (r.Accepted? <==> v.Some? && PluginTakes(ws, accepts, name, v.value))
      && (r.NotHandled? <==> v.Some? && !PluginTakes(ws, accepts, name, v.value))
  {
    RouteIsLongest(ws, name);
  }

  /** What a session's SET request comes to. */
  ghost function SetOutcome(w: World, subs: Subs, session: Session, raw: string, args: seq<string>): Outcome {
    Respond(w, subs, session, IrspValues.Array(Bulks([raw] + args)))
  }

  lemma SetIs(w: World, subs: Subs, session: Session, raw: string, args: seq<string>)
    requires Upper(raw) == "SET" && session.hello && |args| == 3 && w.writer.Some?
    ensures var r, result := SetOutcome(w, subs, session, raw, args), w.writer.value(args[0], args[1], args[2]);
      && r.subs == subs && r.session == session && r.wrote
      && r.reply == match result {
           case Accepted => IrspValues.Simple("OK")
           case NotHandled => IrspValues.Error("NOT_FOUND", "no writer for topic")
           case Failed => IrspValues.Error("ERR", "write failed")
         }
  {
    var items := Bulks([raw] + args);
    assert AllBulk(items) && Texts(items) == [raw] + args && ([raw] + args)[1..] == args;
  }

  lemma SetRefused(w: World, subs: Subs, session: Session, raw: string, args: seq<string>)
    requires Upper(raw) == "SET" && !(session.hello && |args| == 3 && w.writer.Some?)
    ensures var r := SetOutcome(w, subs, session, raw, args);
      r.subs == subs && r.session == session && !r.wrote && r.reply.Error?
  {
    var items := Bulks([raw] + args);
    assert AllBulk(items) && Texts(items) == [raw] + args && ([raw] + args)[1..] == args;
  }

  /** A SET changes no subscription.  It is answered OK exactly when the session has said HELLO, there are
      three arguments, the bytes are a value of the named type, and the plugin registered under the longest
      prefix of the tag's name takes that value; so not when no prefix applies. */
  lemma SetOkIff(w: World, subs: Subs, session: Session, raw: string, args: seq<string>, ws: seq<Reg>, accepts: Handlers)
    requires Upper(raw) == "SET" && Distinct(ws) && w.writer == Some(Exit(ws, accepts))
    ensures var r := SetOutcome(w, subs, session, raw, args);
      && r.subs == subs && r.session == session && (r.wrote <==> session.hello && |args| == 3)
      && (r.reply == IrspValues.Simple("OK") <==>
            && session.hello && |args| == 3
            && var v := VariantCodec.ToVariant(args[1], args[2]); v.Some? && PluginTakes(ws, accepts, args[0], v.value))
  {
    if session.hello && |args| == 3 {
      SetIs(w, subs, session, raw, args);
      WrittenIff(ws, accepts, args[0], args[1], args[2]);
    } else {
      SetRefused(w, subs, session, raw, args);
    }
  }

  /** Any value a client encodes reaches the plugin in charge as that value: SET of its type and bytes is
      answered OK exactly when that plugin takes the value, and NOT_FOUND otherwise. */
  lemma SetDelivers(w: World, subs: Subs, session: Session, raw: string, name: string, v: VariantCodec.Variant, ws: seq<Reg>, accepts: Handlers)
    requires Upper(raw) == "SET" && session.hello && VariantCodec.IsVariant(v)
    requires Distinct(ws) && w.writer == Some(Exit(ws, accepts))
    ensures var coded := VariantCodec.EncodeVariant(v);
      SetOutcome(w, subs, session, raw, [name, coded.0, coded.1]).reply ==
        if PluginTakes(ws, accepts, name, v) then IrspValues.Simple("OK") else IrspValues.Error("NOT_FOUND", "no writer for topic")
  {
    var coded := VariantCodec.EncodeVariant(v);
    VariantCodec.VariantRoundTrip(v, []);
    assert coded.1 + [] == coded.1;
    SetIs(w, subs, session, raw, [name, coded.0, coded.1]);
    WrittenIff(ws, accepts, name, coded.0, coded.1);
  }
}
