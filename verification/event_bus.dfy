/** The event bus: publishers put events into the lock-free ring, one worker takes them out and
    calls the subscriptions whose filter lets them through, and drains the ring when stopped. */
module EventBuses {
  import opened MpmcMachine
  import opened MpmcQueues
  import opened RingArithmetic

  datatype Event = Event(severity: nat, category: string, text: string)

  datatype Subscription = Subscription(id: nat, minSeverity: nat, category: string)

  predicate Passes(sub: Subscription, e: Event) {
    sub.minSeverity <= e.severity && (sub.category == "" || sub.category == e.category)
  }

  /** The subscriptions an event is delivered to, in order. */
  function Told(subs: seq<Subscription>, e: Event): seq<nat> {
    if subs == [] then []
    else Told(subs[..|subs| - 1], e) + if Passes(subs[|subs| - 1], e) then [subs[|subs| - 1].id] else []
  }

  lemma {:induction false} ToldIs(subs: seq<Subscription>, e: Event, id: nat)
    ensures id in Told(subs, e) <==>
            exists sub <- subs :: sub.id == id && sub.minSeverity <= e.severity && (sub.category == "" || sub.category == e.category)
    ensures |Told(subs, e)| <= |subs|
  {
    if subs != [] {
      var last, rest := subs[|subs| - 1], subs[..|subs| - 1];
      ToldIs(rest, e, id);
      assert subs == rest + [last];
    }
  }

  /** One event delivered: which subscriptions existed when it was its turn, and which were called. */
  datatype Delivery = Delivery(e: Event, snapshot: seq<Subscription>, told: seq<nat>)

  datatype Worker =
    | Head                                // about to look for a stop request
    | Polling(final: bool)                // inside tryDequeue
    | Holding(e: Event, final: bool)      // has an event, before taking the snapshot
    | Sending(next: nat, final: bool)     // calling the handlers of the last delivery
    | Finished

  const WORKER: nat := 0

  /** `mark` is the number of events accepted when the final drain began; `quiet` tells that no
      publish was in progress then. */
  datatype Bus = Bus(q: State<Event>, w: Worker, stopping: bool, subs: seq<Subscription>, nextId: nat,
                     dropped: nat, log: seq<Delivery>, mark: nat, quiet: bool)

  datatype Action =
    | Publish(t: nat, e: Event)
    | Advance(t: nat, spurious: bool)
    | Subscribe(minSeverity: nat, category: string)
    | Unsubscribe(id: nat)
    | Stop
    | Restart  // start after stop has returned: a new worker
    | Work(spurious: bool, residue: Event)

  function Start(data: seq<Event>): Bus
    requires |data| >= 2
  {
    Bus(Initial(data), Head, false, [], 1, 0, [], 0, false)
  }

  /** Without the first subscription of that id. */
  function Removed(subs: seq<Subscription>, id: nat): seq<Subscription> {
    if subs == [] then [] else if subs[0].id == id then subs[1..] else [subs[0]] + Removed(subs[1..], id)
  }

  function Poll(b: Bus, final: bool): Bus
    requires Shape(b.q)
  {
    b.(q := MpmcMachine.Step(b.q, StartDeq(WORKER)), w := Polling(final))
  }

  ghost predicate Calm(q: State<Event>) {
    forall t: nat :: t != WORKER ==> OpOf(q, t).Idle?
  }

  ghost function WorkStep(b: Bus, spurious: bool, residue: Event): (r: Bus)
    requires Shape(b.q)
    ensures Shape(r.q)
  {
    match b.w
    case Head => if b.stopping then Poll(b, true).(mark := b.q.enq, quiet := Calm(b.q)) else Poll(b, false)
    case Polling(final) =>
      var q := MpmcMachine.Step(b.q, Go(WORKER, spurious, residue));
      if !OpOf(q, WORKER).Idle? then b.(q := q)
      else if OpOf(b.q, WORKER).DeqMoved? then b.(q := q, w := Holding(OpOf(b.q, WORKER).v, final))
      else b.(q := q, w := if final then Finished else Head)
    case Holding(e, final) => b.(w := Sending(0, final), log := b.log + [Delivery(e, b.subs, [])])
    case Sending(next, final) =>
      if b.log == [] || next >= |b.log[|b.log| - 1].snapshot| then Poll(b, final)
      else
        var d := b.log[|b.log| - 1];
        var told := d.told + if Passes(d.snapshot[next], d.e) then [d.snapshot[next].id] else [];
        b.(w := Sending(next + 1, final), log := b.log[..|b.log| - 1] + [d.(told := told)])
    case Finished => b
  }

  ghost function BusStep(b: Bus, a: Action): (r: Bus)
    requires Shape(b.q)
    ensures Shape(r.q)
  {
    match a
    case Publish(t, e) => if t == WORKER then b else b.(q := MpmcMachine.Step(b.q, StartEnq(t, e)))
    case Advance(t, spurious) =>
      if t == WORKER || !Enqueuing(OpOf(b.q, t)) then b
      else
        var q := StepEnq(b.q, t, spurious);
        b.(q := q, dropped := b.dropped + if OpOf(b.q, t).EnqLoaded? && OpOf(q, t).Idle? then 1 else 0)
    case Subscribe(minSeverity, category) =>
      b.(subs := b.subs + [Subscription(b.nextId, minSeverity, category)], nextId := b.nextId + 1)
    case Unsubscribe(id) => b.(subs := Removed(b.subs, id))
    case Stop => b.(stopping := true)
    case Restart => if b.w.Finished? then b.(w := Head, stopping := false, mark := 0, quiet := false) else b
    case Work(spurious, residue) => WorkStep(b, spurious, residue)
  }

  // ---- The invariant ----

  function Events(log: seq<Delivery>): seq<Event> {
    seq(|log|, i requires 0 <= i < |log| => log[i].e)
  }

  /** The event the worker has taken out but not begun to deliver. */
  function InHand(b: Bus): seq<Event> {
    match b.w
    case Holding(e, _) => [e]
    case Polling(_) =>
      var op := OpOf(b.q, WORKER);
      if op.DeqMoved? then [op.v]
      else if op.DeqClaimed? && op.pos < |b.q.claimed| then [b.q.claimed[op.pos]]
      else []
    case _ => []
  }

  predicate Dequeuing(op: Op<Event>) {
    op.DeqLoaded? || op.DeqReady? || op.DeqReload? || op.DeqClaimed? || op.DeqMoved?
  }

  /** The worker alone dequeues, and only while it polls. */
  ghost predicate RolesOk(b: Bus) {
    && (forall t: nat :: t != WORKER ==> OpOf(b.q, t).Idle? || Enqueuing(OpOf(b.q, t)))
    && (if b.w.Polling? then Dequeuing(OpOf(b.q, WORKER)) else OpOf(b.q, WORKER).Idle?)
  }

  /** Everything accepted is delivered, in hand or queued, in the order of acceptance. */
  ghost predicate Conserved(b: Bus) {
    b.q.deq <= |b.q.claimed| && b.q.claimed == Events(b.log) + InHand(b) + b.q.claimed[b.q.deq..]
  }

  /** Each delivery has called its snapshot's subscriptions; the last one perhaps only the first so many. */
  ghost predicate LogOk(b: Bus) {
    forall i :: 0 <= i < |b.log| ==>
      var d := b.log[i];
      if b.w.Sending? && i == |b.log| - 1 then b.w.next <= |d.snapshot| && d.told == Told(d.snapshot[..b.w.next], d.e)
      else d.told == Told(d.snapshot, d.e)
  }

  /** After a quiet start of the final drain nothing accepted before it is half-written. */
  ghost predicate DrainOk(b: Bus) {
    b.quiet ==>
      && b.mark <= b.q.enq
      && (forall p: nat :: p < b.mark ==> !Writing(b.q, p))
      && (b.w.Finished? ==> b.mark <= b.q.deq)
  }

  ghost predicate BusInv(b: Bus) {
    Inv(b.q) && RolesOk(b) && Conserved(b) && LogOk(b) && DrainOk(b) && (b.w.Sending? ==> b.log != [])
  }

  lemma StartBus(data: seq<Event>)
    requires |data| >= 2
    ensures BusInv(Start(data))
  {
    InitialInv(data);
  }

  // ---- Publishing ----

  lemma PublishKeeps(b: Bus, t: nat, e: Event)
    requires BusInv(b)
    ensures BusInv(BusStep(b, Publish(t, e)))
  {
    StepInv(b.q, StartEnq(t, e));
    var r := BusStep(b, Publish(t, e));
    if t != WORKER {
      assert forall u: nat :: u != t ==> OpOf(r.q, u) == OpOf(b.q, u);
      assert OpOf(r.q, t) == if OpOf(b.q, t).Idle? then EnqLoaded(e, b.q.enq) else OpOf(b.q, t);
    }
    forall p: nat | p < b.mark && b.quiet
      ensures !Writing(r.q, p)
    {
      assert !Writing(b.q, p);
    }
  }

  /** A publisher's step adds at most one accepted event, at the end. */
  lemma EnqueueStep(q: State<Event>, t: nat, spurious: bool)
    requires Inv(q) && Enqueuing(OpOf(q, t))
    ensures var r := StepEnq(q, t, spurious);
      && Inv(r) && r.deq == q.deq && r.enq >= q.enq && q.claimed <= r.claimed
      && (forall u: nat :: u != t ==> OpOf(r, u) == OpOf(q, u)) && (OpOf(r, t).Idle? || Enqueuing(OpOf(r, t)))
      && (forall p: nat :: p < q.enq && Writing(r, p) ==> Writing(q, p))
  {
    GoInv(q, t, spurious, q.data[0]);
    var r := StepEnq(q, t, spurious);
    forall p: nat | p < q.enq && Writing(r, p)
      ensures Writing(q, p)
    {
      assert r.enqBy[p] == q.enqBy[p];
    }
  }

  lemma AdvanceKeeps(b: Bus, t: nat, spurious: bool)
    requires BusInv(b)
    ensures BusInv(BusStep(b, Advance(t, spurious)))
  {
    if t != WORKER && Enqueuing(OpOf(b.q, t)) {
      EnqueueStep(b.q, t, spurious);
      var r := BusStep(b, Advance(t, spurious));
      assert OpOk(b.q, WORKER);
      assert OpOf(r.q, WORKER) == OpOf(b.q, WORKER);
      ConservedMore(b, r);
    }
  }

  lemma ConservedMore(b: Bus, r: Bus)
    requires Conserved(b) && b.q.claimed <= r.q.claimed && r.q.deq == b.q.deq && r.log == b.log && InHand(r) == InHand(b)
    ensures Conserved(r)
  {
    var more := r.q.claimed[|b.q.claimed|..];
    assert r.q.claimed == b.q.claimed + more;
    assert r.q.claimed[b.q.deq..] == b.q.claimed[b.q.deq..] + more;
  }

  // ---- The worker ----

  lemma PollKeeps(b: Bus, r: Bus, final: bool)
    requires BusInv(b) && !b.w.Polling? && InHand(b) == []
    requires r == Poll(b, final) || r == Poll(b, final).(mark := b.q.enq, quiet := Calm(b.q))
    requires b.w.Sending? ==> b.w.next >= |b.log[|b.log| - 1].snapshot|
    ensures BusInv(r)
  {
    StepInv(b.q, StartDeq(WORKER));
    assert forall u: nat :: u != WORKER ==> OpOf(r.q, u) == OpOf(b.q, u);
    assert OpOf(r.q, WORKER) == DeqLoaded(b.q.deq);
    assert InHand(r) == InHand(b);
    if b.w.Sending? {
      var d := b.log[|b.log| - 1];
      assert d.snapshot[..b.w.next] == d.snapshot;
    }
    forall p: nat | p < r.mark && r.quiet
      ensures !Writing(r.q, p)
    {
      if r.mark == b.mark && r.quiet == b.quiet {
        assert !Writing(b.q, p);
      } else {
        assert OpOk(b.q, b.q.enqBy[p]);
      }
    }
  }

  /** What the worker's own step inside tryDequeue does. */
  lemma DequeueStep(q: State<Event>, spurious: bool, residue: Event)
    requires Inv(q) && Dequeuing(OpOf(q, WORKER))
    ensures var r := StepDeq(q, WORKER, spurious, residue); var op := OpOf(q, WORKER);
      && Inv(r) && r.enq == q.enq && r.claimed == q.claimed
      && (forall u: nat :: u != WORKER ==> OpOf(r, u) == OpOf(q, u))
      && (OpOf(r, WORKER).Idle? || Dequeuing(OpOf(r, WORKER)))
      && r.deq == (if OpOf(r, WORKER).DeqClaimed? then q.deq + 1 else q.deq)
      && (OpOf(r, WORKER).DeqClaimed? ==> op.DeqReady? && OpOf(r, WORKER).pos == q.deq < q.enq)
      && (OpOf(r, WORKER).DeqMoved? ==>
            op.DeqClaimed? && op.pos < |q.claimed| && OpOf(r, WORKER) == DeqMoved(q.claimed[op.pos], op.pos))
      && (op.DeqClaimed? ==> OpOf(r, WORKER).DeqMoved?) && (op.DeqMoved? ==> OpOf(r, WORKER).Idle?)
      && (op.DeqLoaded? && OpOf(r, WORKER).Idle? ==> q.enq == q.deq || Writing(q, q.deq))
  {
    GoInv(q, WORKER, spurious, residue);
    var op := OpOf(q, WORKER);
    assert OpOk(q, WORKER);
    if op.DeqClaimed? {
      ClaimedCellHoldsValue(q, WORKER, op.pos);
    }
    if op.DeqLoaded? {
      EmptyVerdict(q, WORKER, op.pos);
    }
  }

  lemma TakeNext(claimed: seq<Event>, delivered: seq<Event>, deq: nat)
    requires deq < |claimed| && claimed == delivered + [] + claimed[deq..]
    ensures claimed == delivered + [claimed[deq]] + claimed[deq + 1..]
  {
    assert claimed[deq..] == [claimed[deq]] + claimed[deq + 1..];
    assert delivered + [] == delivered;
  }

  /** Polling changes what is in hand only by claiming the oldest queued event. */
  lemma PollingInHand(b: Bus, spurious: bool, residue: Event)
    requires BusInv(b) && b.w.Polling?
    ensures var r := WorkStep(b, spurious, residue);
      && r.q.claimed == b.q.claimed && r.log == b.log
      && if OpOf(r.q, WORKER).DeqClaimed? then
           b.q.deq < |b.q.claimed| && r.q.deq == b.q.deq + 1 && InHand(b) == [] && InHand(r) == [b.q.claimed[b.q.deq]]
         else r.q.deq == b.q.deq && InHand(r) == InHand(b)
  {
    DequeueStep(b.q, spurious, residue);
    assert OpOk(b.q, WORKER);
  }

  lemma PollingConserved(b: Bus, spurious: bool, residue: Event)
    requires BusInv(b) && b.w.Polling?
    ensures Conserved(WorkStep(b, spurious, residue))
  {
    var r := WorkStep(b, spurious, residue);
    PollingInHand(b, spurious, residue);
    if OpOf(r.q, WORKER).DeqClaimed? {
      TakeNext(b.q.claimed, Events(b.log), b.q.deq);
    }
  }

  /** The worker never publishes, so it leaves what is half-written alone. */
  lemma DequeueWriting(q: State<Event>, spurious: bool, residue: Event, p: nat)
    requires Inv(q) && Dequeuing(OpOf(q, WORKER))
    ensures Writing(StepDeq(q, WORKER, spurious, residue), p) ==> Writing(q, p)
  {
    DequeueStep(q, spurious, residue);
  }

  lemma PollingDrain(b: Bus, spurious: bool, residue: Event)
    requires BusInv(b) && b.w.Polling?
    ensures DrainOk(WorkStep(b, spurious, residue))
  {
    var r := WorkStep(b, spurious, residue);
    assert r.q == StepDeq(b.q, WORKER, spurious, residue);
    DequeueStep(b.q, spurious, residue);
    forall p: nat | p < r.mark && r.quiet
      ensures !Writing(r.q, p)
    {
      DequeueWriting(b.q, spurious, residue, p);
    }
  }

  lemma PollingKeeps(b: Bus, spurious: bool, residue: Event)
    requires BusInv(b) && b.w.Polling?
    ensures BusInv(WorkStep(b, spurious, residue))
  {
    PollingConserved(b, spurious, residue);
    PollingDrain(b, spurious, residue);
    DequeueStep(b.q, spurious, residue);
    var r := WorkStep(b, spurious, residue);
    assert r.log == b.log && !b.w.Sending? && !r.w.Sending?;
  }

  lemma HoldingKeeps(b: Bus, spurious: bool, residue: Event)
    requires BusInv(b) && b.w.Holding?
    ensures BusInv(WorkStep(b, spurious, residue))
  {
    var r := WorkStep(b, spurious, residue);
    assert Events(r.log) == Events(b.log) + [b.w.e];
    assert Events(r.log) + [] == Events(r.log);
    assert r.log[|b.log|].snapshot[..0] == [];
  }

  lemma SendingKeeps(b: Bus, spurious: bool, residue: Event)
    requires BusInv(b) && b.w.Sending? && b.w.next < |b.log[|b.log| - 1].snapshot|
    ensures BusInv(WorkStep(b, spurious, residue))
  {
    var r := WorkStep(b, spurious, residue);
    var d := b.log[|b.log| - 1];
    assert Events(r.log) == Events(b.log);
    assert d.snapshot[..b.w.next + 1][..b.w.next] == d.snapshot[..b.w.next];
    assert r.log[|b.log| - 1].snapshot == d.snapshot;
  }

  lemma WorkKeeps(b: Bus, spurious: bool, residue: Event)
    requires BusInv(b)
    ensures BusInv(WorkStep(b, spurious, residue))
  {
    match b.w
    case Head => PollKeeps(b, WorkStep(b, spurious, residue), b.stopping);
    case Polling(_) => PollingKeeps(b, spurious, residue);
    case Holding(_, _) => HoldingKeeps(b, spurious, residue);
    case Sending(next, final) =>
      if next < |b.log[|b.log| - 1].snapshot| {
        SendingKeeps(b, spurious, residue);
      } else {
        PollKeeps(b, WorkStep(b, spurious, residue), final);
      }
    case Finished =>
  }

  lemma BusKeeps(b: Bus, a: Action)
    requires BusInv(b)
    ensures BusInv(BusStep(b, a))
  {
    match a
    case Publish(t, e) => PublishKeeps(b, t, e);
    case Advance(t, spurious) => AdvanceKeeps(b, t, spurious);
    case Work(spurious, residue) => WorkKeeps(b, spurious, residue);
    case _ =>
  }

  ghost function BusRun(b: Bus, acts: seq<Action>): (r: Bus)
    requires Shape(b.q)
    ensures Shape(r.q)
    decreases |acts|
  {
    if acts == [] then b else BusRun(BusStep(b, acts[0]), acts[1..])
  }

  lemma {:induction false} BusRunKeeps(b: Bus, acts: seq<Action>)
    requires BusInv(b)
    ensures BusInv(BusRun(b, acts))
    decreases |acts|
  {
    if acts != [] {
      BusKeeps(b, acts[0]);
      BusRunKeeps(BusStep(b, acts[0]), acts[1..]);
    }
  }

  /** In every interleaving of publishers, subscribers, the worker and a stop request, the events
      accepted are those delivered, then the one in hand, then those queued, in this order; and each
      finished delivery has called exactly the subscriptions of its moment that let it through, one in
      progress those of them whose turn has come. */
  lemma NothingLostOrRepeated(data: seq<Event>, acts: seq<Action>)
    requires |data| >= 2
    ensures var b := BusRun(Start(data), acts);
      && b.q.deq <= |b.q.claimed| == b.q.enq
      && b.q.claimed == Events(b.log) + InHand(b) + b.q.claimed[b.q.deq..] && |InHand(b)| <= 1
      && (forall i :: 0 <= i < |b.log| && !(b.w.Sending? && i == |b.log| - 1) ==>
            b.log[i].told == Told(b.log[i].snapshot, b.log[i].e))
      && (b.w.Sending? && b.log != [] ==>
            var d := b.log[|b.log| - 1]; b.w.next <= |d.snapshot| && d.told == Told(d.snapshot[..b.w.next], d.e))
  {
    StartBus(data);
    BusRunKeeps(Start(data), acts);
  }

  // ---- Who is told: the subscriptions of the moment ----

  lemma RunSplit(b: Bus, acts: seq<Action>)
    requires Shape(b.q) && acts != []
    ensures BusRun(b, acts) == BusRun(BusRun(b, acts[..|acts| - 1]), [acts[|acts| - 1]])
  {
    assert acts == acts[..|acts| - 1] + [acts[|acts| - 1]];
    BusRunAppend(b, acts[..|acts| - 1], [acts[|acts| - 1]]);
  }

  lemma OneStep(b: Bus, a: Action, r: Bus)
    requires Shape(b.q) && r == BusStep(b, a)
    ensures BusRun(b, [a]) == r
  {
    assert [a][0] == a && [a][1..] == [];
    assert BusRun(r, []) == r;
  }

  /** Deliveries keep their event and their snapshot; a new one has those of the moment. */
  lemma LogGrows(b: Bus, a: Action)
    requires Shape(b.q)
    ensures var r := BusStep(b, a);
      && |b.log| <= |r.log| <= |b.log| + 1
      && (forall i :: 0 <= i < |b.log| ==> r.log[i].e == b.log[i].e && r.log[i].snapshot == b.log[i].snapshot)
      && (|r.log| > |b.log| ==> a.Work? && b.w.Holding? && r.log[|b.log|].e == b.w.e && r.log[|b.log|].snapshot == b.subs)
  {
  }

  /** The delivery of `log[i]` began when the worker held its event, with the subscriptions of `m`. */
  ghost predicate BeganAt(m: Bus, d: Delivery, i: nat) {
    m.w.Holding? && m.w.e == d.e && |m.log| == i && m.subs == d.snapshot
  }

  /** In every run the snapshot of each delivery is the list of subscriptions at the moment its event's turn
      came: the worker had the event in hand and had begun exactly the deliveries before it. */
  lemma {:induction false} SnapshotsAreOfTheMoment(data: seq<Event>, acts: seq<Action>, i: nat)
    requires |data| >= 2
    ensures i < |BusRun(Start(data), acts).log| ==>
              exists k :: 0 <= k < |acts| && acts[k].Work? &&
                          BeganAt(BusRun(Start(data), acts[..k]), BusRun(Start(data), acts).log[i], i)
    decreases |acts|
  {
    if acts != [] && i < |BusRun(Start(data), acts).log| {
      var init, last := acts[..|acts| - 1], acts[|acts| - 1];
      var b := BusRun(Start(data), init);
      RunSplit(Start(data), acts);
      OneStep(b, last, BusStep(b, last));
      LogGrows(b, last);
      if i < |b.log| {
        SnapshotsAreOfTheMoment(data, init, i);
        var k :| 0 <= k < |init| && init[k].Work? && BeganAt(BusRun(Start(data), init[..k]), b.log[i], i);
        assert acts[..k] == init[..k] && acts[k] == init[k];
      } else {
        assert acts[|init|].Work? && BeganAt(BusRun(Start(data), acts[..|init|]), BusRun(Start(data), acts).log[i], i);
      }
    }
  }

  function Subscribes(acts: seq<Action>): nat {
    if acts == [] then 0 else Subscribes(acts[..|acts| - 1]) + if acts[|acts| - 1].Subscribe? then 1 else 0
  }

  /** The subscription was made by the j-th action, under the next free id, and not taken back since. */
  predicate MadeAt(acts: seq<Action>, sub: Subscription, j: nat) {
    && j < |acts| && acts[j] == Subscribe(sub.minSeverity, sub.category) && sub.id == Subscribes(acts[..j]) + 1
    && forall k :: j < k < |acts| ==> acts[k] != Unsubscribe(sub.id)
  }

  ghost predicate InForce(acts: seq<Action>, sub: Subscription) {
    exists j: nat :: MadeAt(acts, sub, j)
  }

  predicate InOrder(subs: seq<Subscription>, bound: nat) {
    && (forall i, j :: 0 <= i < j < |subs| ==> subs[i].id < subs[j].id)
    && forall sub <- subs :: sub.id < bound
  }

  lemma CutInOrder(subs: seq<Subscription>, i: nat, bound: nat)
    requires InOrder(subs, bound) && i < |subs|
    ensures InOrder(subs[..i] + subs[i + 1..], bound)
    ensures forall sub :: sub in subs[..i] + subs[i + 1..] <==> sub in subs && sub.id != subs[i].id
  {
    var r := subs[..i] + subs[i + 1..];
    assert forall k :: 0 <= k < |r| ==> r[k] == if k < i then subs[k] else subs[k + 1];
    forall sub | sub in subs && sub.id != subs[i].id
      ensures sub in r
    {
      var k :| 0 <= k < |subs| && subs[k] == sub;
      assert sub == r[if k < i then k else k - 1];
    }
  }

  lemma RemovedHolds(subs: seq<Subscription>, id: nat, bound: nat)
    requires InOrder(subs, bound)
    ensures InOrder(Removed(subs, id), bound)
    ensures forall sub :: sub in Removed(subs, id) <==> sub in subs && sub.id != id
  {
    if sub :| sub in subs && sub.id == id {
      var i :| 0 <= i < |subs| && subs[i] == sub;
      RemovedIs(subs, id, i);
      CutInOrder(subs, i, bound);
    } else {
      RemovedNone(subs, id);
    }
  }

  /** What the actions other than subscribing and unsubscribing leave alone. */
  lemma SubsKept(b: Bus, a: Action)
    requires Shape(b.q) && !a.Subscribe? && !a.Unsubscribe?
    ensures BusStep(b, a).subs == b.subs && BusStep(b, a).nextId == b.nextId
  {
  }

  lemma InForceMore(acts: seq<Action>, a: Action, sub: Subscription)
    ensures InForce(acts + [a], sub) <==>
      || (InForce(acts, sub) && a != Unsubscribe(sub.id))
      || (a == Subscribe(sub.minSeverity, sub.category) && sub.id == Subscribes(acts) + 1)
  {
    var all := acts + [a];
    assert all[..|acts|] == acts && all[|acts|] == a;
    if InForce(all, sub) {
      var j: nat :| MadeAt(all, sub, j);
      if j < |acts| {
        MadeEarlier(acts, a, sub, j);
      }
    }
    if InForce(acts, sub) && a != Unsubscribe(sub.id) {
      var j: nat :| MadeAt(acts, sub, j);
      MadeEarlier(acts, a, sub, j);
    }
    if a == Subscribe(sub.minSeverity, sub.category) && sub.id == Subscribes(acts) + 1 {
      assert MadeAt(all, sub, |acts|);
    }
  }

  lemma MadeEarlier(acts: seq<Action>, a: Action, sub: Subscription, j: nat)
    requires j < |acts|
    ensures MadeAt(acts + [a], sub, j) <==> MadeAt(acts, sub, j) && a != Unsubscribe(sub.id)
  {
    var all := acts + [a];
    assert all[..j] == acts[..j] && all[|acts|] == a;
    assert forall k :: j < k < |acts| ==> all[k] == acts[k];
  }

  /** After any run the subscriptions are exactly those made and not taken back since, oldest first, with ids
      counted up from 1. */
  lemma {:induction false} SubscribedAre(data: seq<Event>, acts: seq<Action>)
    requires |data| >= 2
    ensures var b := BusRun(Start(data), acts);
      && b.nextId == Subscribes(acts) + 1 && InOrder(b.subs, b.nextId)
      && forall sub :: sub in b.subs <==> InForce(acts, sub)
    decreases |acts|
  {
    if acts != [] {
      var init, a := acts[..|acts| - 1], acts[|acts| - 1];
      assert acts == init + [a];
      var b := BusRun(Start(data), init);
      RunSplit(Start(data), acts);
      OneStep(b, a, BusStep(b, a));
      SubscribedAre(data, init);
      if a.Unsubscribe? {
        RemovedHolds(b.subs, a.id, b.nextId);
      } else if !a.Subscribe? {
        SubsKept(b, a);
      }
      forall sub
        ensures sub in BusStep(b, a).subs <==> InForce(acts, sub)
      {
        InForceMore(init, a, sub);
      }
    }
  }

  // ---- Accepted, dropped or still trying ----

  predicate TriesToEnqueue(op: Op<Event>) {
    op.EnqLoaded? || op.EnqReady? || op.EnqReload?
  }

  /** The threads whose publish has no answer yet. */
  function Trying(q: State<Event>): set<nat> {
    set t | t in q.ops && TriesToEnqueue(q.ops[t])
  }

  predicate Begins(q: State<Event>, a: Action) {
    a.Publish? && a.t != WORKER && OpOf(q, a.t).Idle?
  }

  ghost function Begun(data: seq<Event>, acts: seq<Action>): nat
    requires |data| >= 2
    decreases |acts|
  {
    if acts == [] then 0
    else
      var init := acts[..|acts| - 1];
      Begun(data, init) + if Begins(BusRun(Start(data), init).q, acts[|acts| - 1]) then 1 else 0
  }

  lemma TryingIs(q: State<Event>, t: nat)
    ensures t in Trying(q) <==> TriesToEnqueue(OpOf(q, t))
  {
  }

  function Tries(op: Op<Event>): nat {
    if TriesToEnqueue(op) then 1 else 0
  }

  /** One thread's operation changes. */
  lemma TryingOne(q: State<Event>, r: State<Event>, t: nat)
    requires forall u: nat :: u != t ==> OpOf(r, u) == OpOf(q, u)
    ensures |Trying(r)| + Tries(OpOf(q, t)) == |Trying(q)| + Tries(OpOf(r, t))
  {
    forall u: nat
      ensures u != t ==> (u in Trying(q) <==> u in Trying(r))
    {
      TryingIs(q, u);
      TryingIs(r, u);
    }
    TryingIs(q, t);
    TryingIs(r, t);
    Swap(Trying(q), Trying(r), t);
  }

  lemma Swap(a: set<nat>, b: set<nat>, t: nat)
    requires forall u: nat :: u != t ==> (u in a <==> u in b)
    ensures |b| + (if t in a then 1 else 0) == |a| + (if t in b then 1 else 0)
  {
    assert a - {t} == b - {t};
    assert |a - {t}| == |a| - if t in a then 1 else 0;
    assert |b - {t}| == |b| - if t in b then 1 else 0;
  }

  /** A publisher's step: still trying, or accepted, or given up as full. */
  lemma PublisherCounts(q: State<Event>, t: nat, spurious: bool)
    requires Shape(q) && Enqueuing(OpOf(q, t))
    ensures var r := StepEnq(q, t, spurious);
      && (forall u: nat :: u != t ==> OpOf(r, u) == OpOf(q, u))
      && r.enq + (if OpOf(q, t).EnqLoaded? && OpOf(r, t).Idle? then 1 else 0) + Tries(OpOf(r, t)) == q.enq + Tries(OpOf(q, t))
  {
  }

  lemma WorkerCounts(b: Bus, spurious: bool, residue: Event)
    requires BusInv(b)
    ensures var r := WorkStep(b, spurious, residue); r.dropped == b.dropped && NoPublish(b.q, r.q)
  {
    if b.w.Polling? {
      PollingCounts(b, spurious, residue);
    }
  }

  ghost predicate NoPublish(q: State<Event>, r: State<Event>) {
    && r.enq == q.enq && (forall u: nat :: u != WORKER ==> OpOf(r, u) == OpOf(q, u))
    && Tries(OpOf(r, WORKER)) == Tries(OpOf(q, WORKER))
  }

  lemma PollingCounts(b: Bus, spurious: bool, residue: Event)
    requires BusInv(b) && b.w.Polling?
    ensures var r := WorkStep(b, spurious, residue); r.dropped == b.dropped && NoPublish(b.q, r.q)
  {
    DequeueStep(b.q, spurious, residue);
  }

  lemma TryingStep(b: Bus, a: Action)
    requires BusInv(b)
    ensures var r := BusStep(b, a);
      r.q.enq + r.dropped + |Trying(r.q)| == b.q.enq + b.dropped + |Trying(b.q)| + if Begins(b.q, a) then 1 else 0
  {
    match a
    case Publish(t, e) => TryingOne(b.q, BusStep(b, a).q, t);
    case Advance(t, spurious) =>
      if t != WORKER && Enqueuing(OpOf(b.q, t)) {
        PublisherCounts(b.q, t, spurious);
        TryingOne(b.q, StepEnq(b.q, t, spurious), t);
      }
    case Work(spurious, residue) =>
      WorkerCounts(b, spurious, residue);
      TryingOne(b.q, WorkStep(b, spurious, residue).q, WORKER);
    case _ =>
  }

  /** Every publish that has begun is accepted, counted as dropped, or still trying. */
  lemma {:induction false} EveryPublishCounted(data: seq<Event>, acts: seq<Action>)
    requires |data| >= 2
    ensures var b := BusRun(Start(data), acts); Begun(data, acts) == |b.q.claimed| + b.dropped + |Trying(b.q)|
    decreases |acts|
  {
    StartBus(data);
    BusRunKeeps(Start(data), acts);
    if acts == [] {
      assert Trying(Start(data).q) == {};
    } else {
      var init, a := acts[..|acts| - 1], acts[|acts| - 1];
      var b := BusRun(Start(data), init);
      RunSplit(Start(data), acts);
      OneStep(b, a, BusStep(b, a));
      BusRunKeeps(Start(data), init);
      EveryPublishCounted(data, init);
      TryingStep(b, a);
    }
  }

  /** A publish does not look whether the worker is still there: once it has finished, and until the bus is
      started again, nothing is delivered any more, and whatever is accepted stays queued. */
  lemma {:induction false} FinishedUntilRestart(b: Bus, acts: seq<Action>)
    requires BusInv(b) && b.w.Finished? && Restart !in acts
    ensures var r := BusRun(b, acts);
      && r.w.Finished? && r.log == b.log && r.q.deq == b.q.deq && BusInv(r)
      && r.q.claimed == Events(b.log) + r.q.claimed[b.q.deq..]
    decreases |acts|
  {
    if acts == [] {
      assert Events(b.log) + [] == Events(b.log);
    } else {
      BusKeeps(b, acts[0]);
      FinishedStays(b, acts[0]);
      FinishedUntilRestart(BusStep(b, acts[0]), acts[1..]);
    }
  }

  lemma FinishedStays(b: Bus, a: Action)
    requires BusInv(b) && b.w.Finished? && a != Restart
    ensures var r := BusStep(b, a); r.w.Finished? && r.log == b.log && r.q.deq == b.q.deq
  {
    if a.Advance? && a.t != WORKER && Enqueuing(OpOf(b.q, a.t)) {
      EnqueueStep(b.q, a.t, a.spurious);
    }
  }

  /** Everything accepted up to some moment still is, and a quiet drain since then began after it. */
  ghost predicate Since(accepted: seq<Event>, b: Bus) {
    accepted <= b.q.claimed && (b.quiet ==> |accepted| <= b.mark)
  }

  lemma SinceKept(accepted: seq<Event>, b: Bus, a: Action)
    requires BusInv(b) && Since(accepted, b)
    ensures Since(accepted, BusStep(b, a))
  {
    if a.Advance? && a.t != WORKER && Enqueuing(OpOf(b.q, a.t)) {
      EnqueueStep(b.q, a.t, a.spurious);
    }
    if a.Work? && b.w.Polling? {
      DequeueStep(b.q, a.spurious, a.residue);
    }
  }

  lemma {:induction false} SinceRun(accepted: seq<Event>, b: Bus, acts: seq<Action>)
    requires BusInv(b) && Since(accepted, b)
    ensures BusInv(BusRun(b, acts)) && Since(accepted, BusRun(b, acts))
    decreases |acts|
  {
    if acts != [] {
      BusKeeps(b, acts[0]);
      SinceKept(accepted, b, acts[0]);
      SinceRun(accepted, BusStep(b, acts[0]), acts[1..]);
    }
  }

  /** Started again, the bus delivers what it had left behind: when the worker next finishes after a quiet
      drain, every event accepted before the restart has been delivered, once and in order. */
  lemma LeftBehindIsDelivered(b: Bus, acts: seq<Action>)
    requires BusInv(b) && b.w.Finished?
    ensures var r := BusRun(BusStep(b, Restart), acts); r.w.Finished? && r.quiet ==> b.q.claimed <= Events(r.log)
  {
    BusKeeps(b, Restart);
    SinceRun(b.q.claimed, BusStep(b, Restart), acts);
    var r := BusRun(BusStep(b, Restart), acts);
    if r.w.Finished? && r.quiet {
      DrainedPrefix(b.q.claimed, r);
    }
  }

  lemma DrainedPrefix(accepted: seq<Event>, r: Bus)
    requires BusInv(r) && r.w.Finished? && r.quiet && Since(accepted, r)
    ensures accepted <= Events(r.log)
  {
    assert Events(r.log) + [] == Events(r.log);
    assert r.q.claimed == Events(r.log) + r.q.claimed[r.q.deq..];
    assert |Events(r.log)| == r.q.deq;
    assert accepted == r.q.claimed[..|accepted|] == Events(r.log)[..|accepted|];
  }

  /** When the worker has finished, and no publish was in progress as its final drain began, every
      event accepted until then has been delivered, once and in order. */
  lemma FinalDrainIsComplete(data: seq<Event>, acts: seq<Action>)
    requires |data| >= 2
    requires var b := BusRun(Start(data), acts); b.w.Finished? && b.quiet
    ensures var b := BusRun(Start(data), acts);
      b.mark <= |b.log| && b.mark <= |b.q.claimed| && Events(b.log)[..b.mark] == b.q.claimed[..b.mark]
  {
    StartBus(data);
    BusRunKeeps(Start(data), acts);
    var b := BusRun(Start(data), acts);
    assert |b.q.claimed| == |Events(b.log)| + |b.q.claimed[b.q.deq..]|;
    assert b.q.claimed[..b.mark] == (Events(b.log) + [] + b.q.claimed[b.q.deq..])[..b.mark];
  }

  /** The worker finishes with accepted events undelivered exactly when the publisher of the oldest of
      them has claimed its place but not published it yet. */
  lemma FinishLeavesBehindIff(b: Bus, spurious: bool, residue: Event)
    requires BusInv(b) && b.w == Polling(true) && WorkStep(b, spurious, residue).w.Finished?
    ensures var r := WorkStep(b, spurious, residue);
      |Events(r.log)| < |r.q.claimed| <==> Writing(b.q, b.q.deq)
  {
    var r := WorkStep(b, spurious, residue);
    WorkKeeps(b, spurious, residue);
    DequeueStep(b.q, spurious, residue);
    assert OpOk(b.q, WORKER);
    assert |r.q.claimed| == |Events(r.log)| + |r.q.claimed[r.q.deq..]|;
  }

  /** A publisher that has claimed the first place and gone no further. */
  lemma ClaimsOnly(e: Event) returns (acts: seq<Action>)
    ensures var b := BusRun(Start([e, e]), acts);
      && b.q.claimed == [e] && b.q.enq == 1 && b.q.deq == 0 && b.q.cap == 2 && b.q.seqs == [0, 1] && |b.q.data| == 2
      && OpOf(b.q, 1) == EnqClaimed(e, 0) && OpOf(b.q, WORKER) == Idle
      && b.w == Head && b.log == []
  {
    acts := [Publish(1, e), Advance(1, false), Advance(1, false)];
    ThreeSteps(Start([e, e]), acts);
    var b := BusRun(Start([e, e]), acts);
    assert b.q.claimed == [] + [e];
  }

  /** Stopped now, the worker finds the ring "empty" and finishes. */
  lemma FinishesEmpty(b: Bus, e: Event) returns (acts: seq<Action>)
    requires Shape(b.q) && b.q.deq == 0 && b.q.seqs == [0, 1] && b.q.cap == 2 && OpOf(b.q, WORKER) == Idle
    requires b.w == Head && OpOf(b.q, 1) == EnqClaimed(e, 0)
    ensures var r := BusRun(b, acts); r.w.Finished? && r.q.claimed == b.q.claimed && r.log == b.log && !r.quiet
  {
    acts := [Stop, Work(false, e), Work(false, e)];
    ThreeSteps(b, acts);
    assert !Calm(b.q);
    assert OpOf(BusStep(BusStep(b, Stop), Work(false, e)).q, WORKER) == DeqLoaded(0);
  }

  /** It happens: a publisher claims a place, the bus is stopped, and the worker finishes before the event
      is published; the event is accepted and never delivered. */
  lemma FinishLeavesBehindHappens(e: Event) returns (acts: seq<Action>)
    ensures var b := BusRun(Start([e, e]), acts); b.w.Finished? && b.q.claimed == [e] && b.log == [] && !b.quiet
  {
    var claim := ClaimsOnly(e);
    var finish := FinishesEmpty(BusRun(Start([e, e]), claim), e);
    BusRunAppend(Start([e, e]), claim, finish);
    acts := claim + finish;
  }

  lemma ThreeSteps(b: Bus, acts: seq<Action>)
    requires Shape(b.q) && |acts| == 3
    ensures BusRun(b, acts) == BusStep(BusStep(BusStep(b, acts[0]), acts[1]), acts[2])
  {
    var b1 := BusStep(b, acts[0]);
    var b2 := BusStep(b1, acts[1]);
    var b3 := BusStep(b2, acts[2]);
    assert acts[2..][0] == acts[2] && acts[2..][1..] == [];
    assert BusRun(b2, acts[2..]) == BusRun(b3, []) == b3;
    assert acts[1..][0] == acts[1] && acts[1..][1..] == acts[2..];
    assert BusRun(b1, acts[1..]) == BusRun(b2, acts[2..]);
  }

  lemma {:induction false} BusRunAppend(b: Bus, first: seq<Action>, then_: seq<Action>)
    requires Shape(b.q)
    ensures BusRun(b, first + then_) == BusRun(BusRun(b, first), then_)
    decreases |first|
  {
    if first == [] {
      assert first + then_ == then_;
    } else {
      var all, next := first + then_, BusStep(b, first[0]);
      assert all[0] == first[0] && all[1..] == first[1..] + then_;
      BusRunAppend(next, first[1..], then_);
      assert BusRun(b, all) == BusRun(next, all[1..]) && BusRun(b, first) == BusRun(next, first[1..]);
    }
  }

  // ---- The bus itself, used by one thread at a time ----

  lemma {:induction false} RemovedIs(subs: seq<Subscription>, id: nat, i: nat)
    requires i < |subs| && subs[i].id == id && forall k :: 0 <= k < i ==> subs[k].id != id
    ensures Removed(subs, id) == subs[..i] + subs[i + 1..]
  {
    if i > 0 {
      RemovedIs(subs[1..], id, i - 1);
      assert subs[..i] == [subs[0]] + subs[1..][..i - 1];
    }
  }

  lemma {:induction false} RemovedNone(subs: seq<Subscription>, id: nat)
    requires forall sub <- subs :: sub.id != id
    ensures Removed(subs, id) == subs
  {
    if subs != [] {
      assert subs[0] in subs;
      RemovedNone(subs[1..], id);
    }
  }

  class EventBus {
    const queue: MpmcQueue<Event>
    var dropped: nat
    var subscriptions: seq<Subscription>
    var nextId: nat

    ghost predicate Valid()
      reads this, queue, queue.buffer, queue.sequence
    {
      queue.Valid()
    }

    constructor (capacity: nat)
      requires capacity <= HALF
      ensures Valid() && fresh(queue) && fresh(queue.buffer) && fresh(queue.sequence)
      ensures queue.Items() == [] && dropped == 0 && subscriptions == [] && nextId == 1
    {
      queue := new MpmcQueue<Event>(capacity);
      dropped, subscriptions, nextId := 0, [], 1;
    }

    /** Accepted at the end of the queue, or counted as dropped when that is full. */
    method PublishEvent(e: Event, spurious: nat) returns (ok: bool)
      requires Valid()
      modifies this`dropped, queue, queue.buffer, queue.sequence
      ensures Valid() && (ok <==> |old(queue.Items())| < queue.buffer.Length)
      ensures queue.Items() == if ok then old(queue.Items()) + [e] else old(queue.Items())
      ensures dropped == old(dropped) + if ok then 0 else 1
    {
      ok := queue.TryEnqueue(e, spurious);
      if !ok {
        dropped := dropped + 1;
      }
    }

    method AddSubscription(minSeverity: nat, category: string) returns (id: nat)
      modifies this`subscriptions, this`nextId
      ensures id == old(nextId) && nextId == id + 1
      ensures subscriptions == old(subscriptions) + [Subscription(id, minSeverity, category)]
    {
      id := nextId;
      nextId := nextId + 1;
      subscriptions := subscriptions + [Subscription(id, minSeverity, category)];
    }

    method RemoveSubscription(id: nat) returns (found: bool)
      modifies this`subscriptions
      ensures subscriptions == Removed(old(subscriptions), id)
      ensures found <==> exists sub <- old(subscriptions) :: sub.id == id
    {
      var i := 0;
      while i < |subscriptions|
        invariant i <= |subscriptions| && subscriptions == old(subscriptions)
        invariant forall k :: 0 <= k < i ==> subscriptions[k].id != id
      {
        if subscriptions[i].id == id {
          RemovedIs(subscriptions, id, i);
          subscriptions := subscriptions[..i] + subscriptions[i + 1..];
          return true;
        }
        i := i + 1;
      }
      RemovedNone(subscriptions, id);
      return false;
    }

    /** The ids of the handlers called for one event. */
    method Deliver(e: Event) returns (told: seq<nat>)
      ensures told == Told(subscriptions, e)
    {
      var snapshot := subscriptions;
      told := [];
      var i := 0;
      while i < |snapshot|
        invariant i <= |snapshot| && told == Told(snapshot[..i], e)
      {
        var sub := snapshot[i];
        assert snapshot[..i + 1][..i] == snapshot[..i];
        i := i + 1;
        if e.severity < sub.minSeverity {
          continue;
        }
        if sub.category != "" && sub.category != e.category {
          continue;
        }
        told := told + [sub.id];
      }
      assert snapshot[..i] == snapshot;
    }

    /** Takes out and delivers one event, if there is one. */
    method DeliverOne(residue: Event) returns (more: bool, d: Delivery)
      requires Valid()
      modifies queue, queue.buffer, queue.sequence
      ensures Valid() && (more <==> old(queue.Items()) != [])
      ensures more ==> old(queue.Items()) == [d.e] + queue.Items() && d.snapshot == subscriptions && d.told == Told(subscriptions, d.e)
      ensures !more ==> queue.Items() == []
    {
      var out;
      more, out := queue.TryDequeue(0, residue);
      d := Delivery(out, subscriptions, []);
      if more {
        var told := Deliver(out);
        d := Delivery(out, subscriptions, told);
      }
    }

    /** Empties the queue, delivering each event in turn. */
    method Drain(residue: Event) returns (log: seq<Delivery>)
      requires Valid()
      modifies queue, queue.buffer, queue.sequence
      ensures Valid() && queue.Items() == [] && Events(log) == old(queue.Items())
      ensures forall d <- log :: d.snapshot == subscriptions && d.told == Told(subscriptions, d.e)
    {
      log := [];
      var more := true;
      while more
        invariant Valid() && Events(log) + queue.Items() == old(queue.Items())
        invariant forall d <- log :: d.snapshot == subscriptions && d.told == Told(subscriptions, d.e)
        invariant !more ==> queue.Items() == []
        decreases more, |queue.Items()|
      {
        ghost var before := queue.Items();
        var d;
        more, d := DeliverOne(residue);
        if more {
          EventsMore(log, d, queue.Items());
          log := log + [d];
        }
      }
    }
  }

  lemma EventsMore(log: seq<Delivery>, d: Delivery, rest: seq<Event>)
    ensures Events(log + [d]) + rest == Events(log) + ([d.e] + rest)
  {
    assert Events(log + [d]) == Events(log) + [d.e];
  }
}
