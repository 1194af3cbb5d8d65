/** When the server ends a connection: after BYE and after an unreadable frame, once everything queued has
    been sent. */
module ConnectionClosing {
  import opened Options
  import opened IrspValues
  import opened Irsp1Codec
  import opened Dispatchers
  import opened IrspServers

  predicate IsClosing(s: Server, id: nat) {
    id in s.conns && s.conns[id].closeAfterWrite
  }

  lemma {:induction false} RoutingKeepsClosing(s: Server, recs: seq<TagRecord>, id: nat)
    requires id in s.conns
    ensures var r := RouteEach(s, recs);
      id in r.conns && r.conns[id].closeAfterWrite == s.conns[id].closeAfterWrite && s.conns[id].outbox <= r.conns[id].outbox
  {
    if recs != [] {
      RoutingKeepsClosing(s, recs[..|recs| - 1], id);
    }
  }

  lemma ConcludeClosing(s: Server, id: nat, r: Outcome, bye: bool, routed: seq<TagRecord>, other: nat)
    requires id in s.conns && other in s.conns
    ensures var n := Conclude(s, id, r, bye, routed);
      && other in n.conns && s.conns[other].outbox <= n.conns[other].outbox
      && n.conns[other].closeAfterWrite == (s.conns[other].closeAfterWrite || (bye && other == id))
      && (other == id ==> |n.conns[id].outbox| > |s.conns[id].outbox|)
  {
    var handled := s.(subs := r.subs, conns := s.conns[id := s.conns[id].(session := r.session)]);
    RoutingKeepsClosing(handled, if r.wrote then routed else [], other);
  }

  /** A complete request makes its connection a closing one exactly when the command is BYE, in any
      capitalization and whether or not HELLO was said; its answer is queued all the same. */
  lemma ByeCloses(s: Server, id: nat, chunk: string, w: World, routed: seq<TagRecord>, raw: string, args: seq<string>)
    requires id in s.conns && ReadFrame(s.conns[id].rx + chunk) == Request(Array(Bulks([raw] + args)))
    ensures var n := Step(s, Receive(id, chunk, true, w, routed));
      && (IsClosing(n, id) <==> IsClosing(s, id) || Upper(raw) == "BYE")
      && id in n.conns && |n.conns[id].outbox| > |s.conns[id].outbox|
  {
    var held := s.(conns := s.conns[id := s.conns[id].(rx := [])]);
    var request := Array(Bulks([raw] + args));
    var r := Respond(w, held.subs, held.conns[id].session, request);
    ConcludeClosing(held, id, r, IsBye(request), routed, id);
    assert Bulks([raw] + args)[0] == Bulk(raw);
  }

  /** So does a complete frame that cannot be read, after one error. */
  lemma BadFrameCloses(s: Server, id: nat, chunk: string, w: World, routed: seq<TagRecord>)
    requires id in s.conns && ReadFrame(s.conns[id].rx + chunk) == BadFrame
    ensures var n := Step(s, Receive(id, chunk, true, w, routed));
      && IsClosing(n, id) && n.subs == s.subs
      && n.conns[id].outbox == s.conns[id].outbox + [Encoding(Error("PROTOCOL_ERROR", "bad frame"))]
  {
  }

  lemma ProcessKeepsClosing(s: Server, id: nat, frame: string, w: World, routed: seq<TagRecord>, other: nat)
    requires id in s.conns && other in s.conns
    ensures var n := ProcessFrame(s, id, frame, w, routed);
      other in n.conns && (s.conns[other].closeAfterWrite ==> n.conns[other].closeAfterWrite)
  {
    var incoming := ReadFrame(frame);
    if incoming.Request? {
      var r := Respond(w, s.subs, s.conns[id].session, incoming.v);
      ConcludeClosing(s, id, r, IsBye(incoming.v), routed, other);
    }
  }

  lemma StepKeepsClosing(s: Server, a: Input, id: nat)
    requires IsClosing(s, id) && id < s.nextConnId && a != Disconnected(id)
    ensures IsClosing(Step(s, a), id)
  {
    match a
    case Receive(of, chunk, last, w, routed) =>
      if of in s.conns && last {
        var held := s.(conns := s.conns[of := s.conns[of].(rx := [])]);
        ProcessKeepsClosing(held, of, s.conns[of].rx + chunk, w, routed, id);
      }
    case _ =>
  }

  /** A closing connection stays one until it is gone, whatever anybody sends. */
  lemma {:induction false} ClosingStays(before: seq<Input>, after: seq<Input>, id: nat)
    requires IsClosing(Run(before), id)
    ensures IsClosing(Run(before + after), id) || Disconnected(id) in after
    decreases |after|
  {
    if after == [] {
      assert before + after == before;
    } else {
      var init, last := after[..|after| - 1], after[|after| - 1];
      var all := before + after;
      assert all[..|all| - 1] == before + init && all[|all| - 1] == last;
      ClosingStays(before, init, id);
      RunLive(before + init);
      if IsClosing(Run(before + init), id) && last != Disconnected(id) {
        StepKeepsClosing(Run(before + init), last, id);
      }
    }
  }

  /** The connection after `k` of its queued frames have been written. */
  function AfterWrites(s: Server, id: nat, k: nat): Server {
    if k == 0 then s else Step(AfterWrites(s, id, k - 1), Writeable(id, true))
  }

  /** Its queued frames go out one by one in order, and the connection is ended with the last of them, not
      before; with nothing queued, at the next chance. */
  lemma {:induction false} EndsWhenDrained(s: Server, id: nat, k: nat)
    requires IsClosing(s, id) && k <= |s.conns[id].outbox|
    ensures var n := AfterWrites(s, id, k);
      && id in n.conns && n.conns[id] == s.conns[id].(outbox := s.conns[id].outbox[k..])
      && (Ends(n, id, true) <==> k + 1 >= |s.conns[id].outbox|)
  {
    if k == 0 {
      assert s.conns[id].outbox[0..] == s.conns[id].outbox;
    } else {
      EndsWhenDrained(s, id, k - 1);
      assert s.conns[id].outbox[k - 1..][1..] == s.conns[id].outbox[k..];
    }
  }

  /** A connection that is not closing is ended only because writing failed. */
  lemma StaysOpen(s: Server, id: nat, written: bool)
    requires id in s.conns && !s.conns[id].closeAfterWrite
    ensures Ends(s, id, written) <==> s.conns[id].outbox != [] && !written
  {
  }
}
