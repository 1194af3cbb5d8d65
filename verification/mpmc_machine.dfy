/** The bounded lock-free queue as interleaved atomic steps: any number of threads, each
    inside at most one `tryEnqueue` or `tryDequeue`, one shared-memory access per step.
    Tickets are unbounded; `RingWords.WordRunIsRun` says when 64-bit words do the same. */
module MpmcMachine {
  import opened RingArithmetic

  /** Where a thread stands inside its call. */
  datatype Op<T> =
    | Idle
    | EnqLoaded(v: T, pos: nat)   // holds a position, cell sequence not read yet
    | EnqReady(v: T, pos: nat)    // saw sequence == pos, about to compare-and-swap
    | EnqReload(v: T)             // saw a later sequence, must reload the position
    | EnqClaimed(v: T, pos: nat)  // owns ticket pos, data not written
    | EnqStored(v: T, pos: nat)   // data written, sequence not published
    | DeqLoaded(pos: nat)
    | DeqReady(pos: nat)
    | DeqReload
    | DeqClaimed(pos: nat)        // owns ticket pos, data not moved out
    | DeqMoved(v: T, pos: nat)    // data moved out, cell not released

  /** Shared memory plus history: `claimed[p]` and `enqBy[p]` are the value and the thread of
      enqueue ticket `p`, `deqBy[p]` the thread of dequeue ticket `p`, `taken[p]` what it moved out. */
  datatype State<T> = State(
    cap: nat, seqs: seq<nat>, data: seq<T>, enq: nat, deq: nat, ops: map<nat, Op<T>>,
    claimed: seq<T>, enqBy: seq<nat>, deqBy: seq<nat>, taken: map<nat, T>)

  /** One scheduling choice.  `spurious` lets a weak compare-and-swap fail for no reason and
      `residue` is whatever a move leaves behind in the cell. */
  datatype Action<T> =
    | StartEnq(t: nat, v: T)
    | StartDeq(t: nat)
    | Go(t: nat, spurious: bool, residue: T)

  ghost predicate Shape<T>(s: State<T>) {
    s.cap >= 2 && |s.seqs| == s.cap && |s.data| == s.cap
  }

  function OpOf<T>(s: State<T>, t: nat): Op<T> {
    if t in s.ops then s.ops[t] else Idle
  }

  function SetOp<T>(s: State<T>, t: nat, op: Op<T>): State<T> {
    s.(ops := s.ops[t := op])
  }

  function SeqAt<T>(s: State<T>, p: nat): nat
    requires Shape(s)
  {
    s.seqs[Slot(p, s.cap)]
  }

  function DataAt<T>(s: State<T>, p: nat): T
    requires Shape(s)
  {
    s.data[Slot(p, s.cap)]
  }

  /** The constructor's state: cell i carries sequence i, whatever data it holds. */
  function Initial<T>(data: seq<T>): (s: State<T>)
    requires |data| >= 2
    ensures Shape(s)
  {
    State(|data|, seq(|data|, i => i), data, 0, 0, map[], [], [], [], map[])
  }

  function StepEnq<T>(s: State<T>, t: nat, spurious: bool): (r: State<T>)
    requires Shape(s)
    ensures Shape(r)
  {
    match OpOf(s, t)
    case EnqLoaded(v, pos) =>
      if SeqAt(s, pos) == pos then SetOp(s, t, EnqReady(v, pos))
      else if SeqAt(s, pos) < pos then SetOp(s, t, Idle)  // returns false: full
      else SetOp(s, t, EnqReload(v))
    case EnqReload(v) => SetOp(s, t, EnqLoaded(v, s.enq))
    case EnqReady(v, pos) =>
      if s.enq == pos && !spurious then
        SetOp(s, t, EnqClaimed(v, pos)).(enq := pos + 1, claimed := s.claimed + [v], enqBy := s.enqBy + [t])
      else SetOp(s, t, EnqLoaded(v, s.enq))  // a failed exchange reloads the position
    case EnqClaimed(v, pos) =>
      SetOp(s, t, EnqStored(v, pos)).(data := s.data[Slot(pos, s.cap) := v])
    case EnqStored(v, pos) =>
      SetOp(s, t, Idle).(seqs := s.seqs[Slot(pos, s.cap) := pos + 1])  // returns true
    case _ => s
  }

  function StepDeq<T>(s: State<T>, t: nat, spurious: bool, residue: T): (r: State<T>)
    requires Shape(s)
    ensures Shape(r)
  {
    match OpOf(s, t)
    case DeqLoaded(pos) =>
      if SeqAt(s, pos) == pos + 1 then SetOp(s, t, DeqReady(pos))
      else if SeqAt(s, pos) < pos + 1 then SetOp(s, t, Idle)  // returns false: empty
      else SetOp(s, t, DeqReload)
    case DeqReload => SetOp(s, t, DeqLoaded(s.deq))
    case DeqReady(pos) =>
      if s.deq == pos && !spurious then
        SetOp(s, t, DeqClaimed(pos)).(deq := pos + 1, deqBy := s.deqBy + [t])
      else SetOp(s, t, DeqLoaded(s.deq))
    case DeqClaimed(pos) =>
      var v := DataAt(s, pos);
      SetOp(s, t, DeqMoved(v, pos)).(taken := s.taken[pos := v], data := s.data[Slot(pos, s.cap) := residue])
    case DeqMoved(v, pos) =>
      SetOp(s, t, Idle).(seqs := s.seqs[Slot(pos, s.cap) := pos + s.cap])  // returns true
    case _ => s
  }

  predicate Enqueuing<T>(op: Op<T>) {
    op.EnqLoaded? || op.EnqReady? || op.EnqReload? || op.EnqClaimed? || op.EnqStored?
  }

  function Step<T>(s: State<T>, a: Action<T>): (r: State<T>)
    requires Shape(s)
    ensures Shape(r)
  {
    match a
    case StartEnq(t, v) => if OpOf(s, t).Idle? then SetOp(s, t, EnqLoaded(v, s.enq)) else s
    case StartDeq(t) => if OpOf(s, t).Idle? then SetOp(s, t, DeqLoaded(s.deq)) else s
    case Go(t, spurious, residue) =>
      if Enqueuing(OpOf(s, t)) then StepEnq(s, t, spurious) else StepDeq(s, t, spurious, residue)
  }

  function Run<T>(s: State<T>, acts: seq<Action<T>>): (r: State<T>)
    requires Shape(s)
    ensures Shape(r)
  {
    if acts == [] then s else Step(Run(s, acts[..|acts| - 1]), acts[|acts| - 1])
  }

  // ---------------------------------------------------------------- the invariant

  /** The thread that took enqueue ticket `p` is still between its claim and its publication. */
  ghost predicate Writing<T>(s: State<T>, p: nat) {
    p < |s.enqBy| && var op := OpOf(s, s.enqBy[p]); (op.EnqClaimed? || op.EnqStored?) && op.pos == p
  }

  ghost predicate Reading<T>(s: State<T>, p: nat) {
    p < |s.deqBy| && var op := OpOf(s, s.deqBy[p]); (op.DeqClaimed? || op.DeqMoved?) && op.pos == p
  }

  /** The three phases of a cell, seen from the next ticket `q` it will serve. */
  ghost predicate Free<T>(s: State<T>, q: nat)
    requires Shape(s)
  {
    SeqAt(s, q) == q && q < s.deq + s.cap
  }

  ghost predicate BeingWritten<T>(s: State<T>, q: nat)
    requires Shape(s)
  {
    s.cap <= q && var p := q - s.cap;
    SeqAt(s, q) == p && s.deq <= p && Writing(s, p)
  }

  ghost predicate Published<T>(s: State<T>, q: nat)
    requires Shape(s)
  {
    s.cap <= q && var p := q - s.cap;
    SeqAt(s, q) == p + 1 && p < |s.claimed|
    && (p in s.taken || DataAt(s, q) == s.claimed[p])
    && (p < s.deq ==> Reading(s, p))
  }

  ghost predicate CellOk<T>(s: State<T>, q: nat)
    requires Shape(s)
  {
    Free(s, q) || BeingWritten(s, q) || Published(s, q)
  }

  ghost predicate OpOk<T>(s: State<T>, t: nat)
    requires Shape(s)
  {
    match OpOf(s, t)
    case Idle => true
    case EnqLoaded(_, pos) => pos <= s.enq
    case EnqReload(_) => true
    case EnqReady(_, pos) => pos <= s.enq && (pos == s.enq ==> SeqAt(s, pos) == pos)
    case EnqClaimed(v, pos) => OwnsEnq(s, t, v, pos)
    case EnqStored(v, pos) => OwnsEnq(s, t, v, pos) && DataAt(s, pos) == v
    case DeqLoaded(pos) => pos <= s.deq
    case DeqReload => true
    case DeqReady(pos) => pos <= s.deq && (pos == s.deq ==> pos < s.enq && SeqAt(s, pos) == pos + 1)
    case DeqClaimed(pos) => OwnsDeq(s, t, pos) && pos !in s.taken
    case DeqMoved(v, pos) => OwnsDeq(s, t, pos) && pos in s.taken && s.taken[pos] == v
  }

  ghost predicate OwnsEnq<T>(s: State<T>, t: nat, v: T, pos: nat)
    requires Shape(s)
  {
    s.deq <= pos < s.enq <= pos + s.cap && pos < |s.claimed| && pos < |s.enqBy|
    && SeqAt(s, pos) == pos && s.claimed[pos] == v && s.enqBy[pos] == t
  }

  ghost predicate OwnsDeq<T>(s: State<T>, t: nat, pos: nat)
    requires Shape(s)
  {
    pos < s.deq && s.enq <= pos + s.cap && pos < |s.deqBy|
    && SeqAt(s, pos) == pos + 1 && s.deqBy[pos] == t
  }

  ghost predicate TicketOk<T>(s: State<T>, p: nat) {
    p < |s.claimed| && (if p in s.taken then s.taken[p] == s.claimed[p]
                        else p < |s.deqBy| && OpOf(s, s.deqBy[p]) == DeqClaimed(p))
  }

  ghost predicate Counters<T>(s: State<T>) {
    s.deq <= s.enq <= s.deq + s.cap
    && |s.claimed| == s.enq && |s.enqBy| == s.enq && |s.deqBy| == s.deq
    && forall p <- s.taken :: p < s.deq
  }

  ghost predicate Inv<T(!new)>(s: State<T>) {
    Shape(s) && Counters(s)
    && (forall q: nat :: s.enq <= q < s.enq + s.cap ==> CellOk(s, q))
    && (forall t: nat :: OpOk(s, t))
    && (forall p: nat :: p < s.deq ==> TicketOk(s, p))
  }

  lemma InitialInv<T(!new)>(data: seq<T>)
    requires |data| >= 2
    ensures Inv(Initial(data))
  {
    var s := Initial(data);
    forall q: nat | s.enq <= q < s.enq + s.cap
      ensures CellOk(s, q)
    {
      assert Slot(q, s.cap) == q;
    }
  }

  // ---------------------------------------------------------------- one step

  /** Two different tickets of the current lap never share a cell. */
  lemma SlotsApart(p: nat, q: nat, cap: nat)
    requires cap > 0 && p != q && p < q + cap && q < p + cap
    ensures Slot(p, cap) != Slot(q, cap)
  {
    if Slot(p, cap) == Slot(q, cap) {
      SlotInjectiveOnLap(if p < q then p else q, if p < q then q else p, cap);
    }
  }

  lemma NextLap(p: nat, cap: nat)
    requires cap > 0
    ensures Slot(p + cap, cap) == Slot(p, cap)
  {
  }

  /** A step that only moves a thread between read-only phases keeps the invariant. */
  lemma LocalStep<T(!new)>(s: State<T>, t: nat, op: Op<T>)
    requires Inv(s)
    requires !OpOf(s, t).EnqClaimed? && !OpOf(s, t).EnqStored? && !OpOf(s, t).DeqClaimed? && !OpOf(s, t).DeqMoved?
    requires !op.EnqClaimed? && !op.EnqStored? && !op.DeqClaimed? && !op.DeqMoved?
    requires OpOk(SetOp(s, t, op), t)
    ensures Inv(SetOp(s, t, op))
  {
    var r := SetOp(s, t, op);
    forall q: nat | r.enq <= q < r.enq + r.cap
      ensures CellOk(r, q)
    {
      assert CellOk(s, q);
      NextLap(q, s.cap);
    }
    forall u: nat ensures OpOk(r, u) {
      assert OpOk(s, u);
    }
    forall p: nat | p < r.deq ensures TicketOk(r, p) {
      assert TicketOk(s, p);
    }
  }

  lemma ClaimEnqCell<T(!new)>(s: State<T>, t: nat, v: T, q: nat)
    requires Inv(s) && OpOf(s, t) == EnqReady(v, s.enq) && s.enq < q <= s.enq + s.cap
    ensures CellOk(StepEnq(s, t, false), q)
  {
    var r := StepEnq(s, t, false);
    assert OpOk(s, t) && CellOk(s, s.enq) && Free(s, s.enq);
    if q == s.enq + s.cap {
      NextLap(s.enq, s.cap);
      assert Writing(r, s.enq);
      assert BeingWritten(r, q);
    } else {
      assert CellOk(s, q);
    }
  }

  lemma ClaimEnqOp<T(!new)>(s: State<T>, t: nat, v: T, u: nat)
    requires Inv(s) && OpOf(s, t) == EnqReady(v, s.enq)
    ensures OpOk(StepEnq(s, t, false), u)
  {
    assert OpOk(s, t) && CellOk(s, s.enq) && Free(s, s.enq) && OpOk(s, u);
    if u != t && (OpOf(s, u).DeqClaimed? || OpOf(s, u).DeqMoved?) && s.enq == OpOf(s, u).pos + s.cap {
      NextLap(OpOf(s, u).pos, s.cap);
    }
  }

  lemma ClaimEnq<T(!new)>(s: State<T>, t: nat, v: T)
    requires Inv(s) && OpOf(s, t) == EnqReady(v, s.enq)
    ensures Inv(StepEnq(s, t, false))
  {
    var r := StepEnq(s, t, false);
    assert CellOk(s, s.enq) && OpOk(s, t);
    forall q: nat | r.enq <= q < r.enq + r.cap ensures CellOk(r, q) { ClaimEnqCell(s, t, v, q); }
    forall u: nat ensures OpOk(r, u) { ClaimEnqOp(s, t, v, u); }
    forall p: nat | p < r.deq ensures TicketOk(r, p) { assert TicketOk(s, p); }
  }

  lemma ClaimDeqCell<T(!new)>(s: State<T>, t: nat, residue: T, q: nat)
    requires Inv(s) && OpOf(s, t) == DeqReady(s.deq) && s.enq <= q < s.enq + s.cap
    ensures CellOk(StepDeq(s, t, false, residue), q)
  {
    var r := StepDeq(s, t, false, residue);
    assert OpOk(s, t) && CellOk(s, q);
    NextLap(s.deq, s.cap);
    if q == s.deq + s.cap {
      assert Reading(r, s.deq);
      assert Published(r, q);
    }
  }

  lemma ClaimDeqOp<T(!new)>(s: State<T>, t: nat, residue: T, u: nat)
    requires Inv(s) && OpOf(s, t) == DeqReady(s.deq)
    ensures OpOk(StepDeq(s, t, false, residue), u)
  {
    assert OpOk(s, t) && OpOk(s, u);
  }

  lemma ClaimDeq<T(!new)>(s: State<T>, t: nat, residue: T)
    requires Inv(s) && OpOf(s, t) == DeqReady(s.deq)
    ensures Inv(StepDeq(s, t, false, residue))
  {
    var r := StepDeq(s, t, false, residue);
    assert OpOk(s, t);
    forall q: nat | r.enq <= q < r.enq + r.cap ensures CellOk(r, q) { ClaimDeqCell(s, t, residue, q); }
    forall u: nat ensures OpOk(r, u) { ClaimDeqOp(s, t, residue, u); }
    forall p: nat | p < r.deq ensures TicketOk(r, p) {
      if p < s.deq { assert TicketOk(s, p); }
    }
  }

  lemma StoreDataCell<T(!new)>(s: State<T>, t: nat, v: T, pos: nat, q: nat)
    requires Inv(s) && OpOf(s, t) == EnqClaimed(v, pos) && s.enq <= q < s.enq + s.cap
    ensures CellOk(StepEnq(s, t, false), q)
  {
    assert OpOk(s, t) && CellOk(s, q);
    NextLap(pos, s.cap);
    if q != pos + s.cap {
      SlotsApart(q, pos + s.cap, s.cap);
    }
  }

  lemma StoreDataOp<T(!new)>(s: State<T>, t: nat, v: T, pos: nat, u: nat)
    requires Inv(s) && OpOf(s, t) == EnqClaimed(v, pos)
    ensures OpOk(StepEnq(s, t, false), u)
  {
    assert OpOk(s, t) && OpOk(s, u);
    if u != t && OpOf(s, u).EnqStored? {
      SlotsApart(OpOf(s, u).pos, pos, s.cap);
    }
  }

  /** The owner writes its cell; the sequence number still says the cell is not readable. */
  lemma StoreData<T(!new)>(s: State<T>, t: nat, v: T, pos: nat)
    requires Inv(s) && OpOf(s, t) == EnqClaimed(v, pos)
    ensures Inv(StepEnq(s, t, false))
  {
    var r := StepEnq(s, t, false);
    forall q: nat | r.enq <= q < r.enq + r.cap ensures CellOk(r, q) { StoreDataCell(s, t, v, pos, q); }
    forall u: nat ensures OpOk(r, u) { StoreDataOp(s, t, v, pos, u); }
    forall p: nat | p < r.deq ensures TicketOk(r, p) { assert TicketOk(s, p); }
  }

  lemma PublishCell<T(!new)>(s: State<T>, t: nat, v: T, pos: nat, q: nat)
    requires Inv(s) && OpOf(s, t) == EnqStored(v, pos) && s.enq <= q < s.enq + s.cap
    ensures CellOk(StepEnq(s, t, false), q)
  {
    assert OpOk(s, t) && CellOk(s, q);
    NextLap(pos, s.cap);
    if q == pos + s.cap {
      assert Published(StepEnq(s, t, false), q);
    } else {
      SlotsApart(q, pos + s.cap, s.cap);
    }
  }

  lemma PublishOp<T(!new)>(s: State<T>, t: nat, v: T, pos: nat, u: nat)
    requires Inv(s) && OpOf(s, t) == EnqStored(v, pos)
    ensures OpOk(StepEnq(s, t, false), u)
  {
    assert OpOk(s, t) && OpOk(s, u);
    if u != t { OtherOpKept(s, u, t, pos); }
  }

  lemma Publish<T(!new)>(s: State<T>, t: nat, v: T, pos: nat)
    requires Inv(s) && OpOf(s, t) == EnqStored(v, pos)
    ensures Inv(StepEnq(s, t, false))
  {
    var r := StepEnq(s, t, false);
    forall q: nat | r.enq <= q < r.enq + r.cap ensures CellOk(r, q) { PublishCell(s, t, v, pos, q); }
    forall u: nat ensures OpOk(r, u) { PublishOp(s, t, v, pos, u); }
    forall p: nat | p < r.deq ensures TicketOk(r, p) { assert TicketOk(s, p); }
  }

  /** Between its compare-and-swap and its sequence store an operation owns its cell. */
  predicate Owns<T>(op: Op<T>) {
    op.EnqClaimed? || op.EnqStored? || op.DeqClaimed? || op.DeqMoved?
  }

  /** No other operation owns, or is about to claim on the strength of, the cell `t` owns. */
  lemma OtherOpKept<T(!new)>(s: State<T>, u: nat, t: nat, pos: nat)
    requires Inv(s) && u != t
    requires Owns(OpOf(s, t)) && OpOf(s, t).pos == pos
    ensures match OpOf(s, u)
      case EnqReady(_, p) => p == s.enq ==> Slot(p, s.cap) != Slot(pos, s.cap)
      case DeqReady(p) => p == s.deq ==> Slot(p, s.cap) != Slot(pos, s.cap)
      case EnqClaimed(_, p) => Slot(p, s.cap) != Slot(pos, s.cap)
      case EnqStored(_, p) => Slot(p, s.cap) != Slot(pos, s.cap)
      case DeqClaimed(p) => Slot(p, s.cap) != Slot(pos, s.cap)
      case DeqMoved(_, p) => Slot(p, s.cap) != Slot(pos, s.cap)
      case _ => true
  {
    assert OpOk(s, t) && OpOk(s, u);
    NextLap(pos, s.cap);
    match OpOf(s, u)
    case EnqReady(_, p) => if p == s.enq && p < pos + s.cap { SlotsApart(p, pos, s.cap); }
    case DeqReady(p) => if p == s.deq && s.deq < pos { SlotsApart(p, pos, s.cap); }
    case EnqClaimed(_, p) => if p != pos { SlotsApart(p, pos, s.cap); }
    case EnqStored(_, p) => if p != pos { SlotsApart(p, pos, s.cap); }
    case DeqClaimed(p) => if p != pos { SlotsApart(p, pos, s.cap); }
    case DeqMoved(_, p) => if p != pos { SlotsApart(p, pos, s.cap); }
    case _ =>
  }

  /** A claimed dequeue ticket finds in its cell exactly the value its enqueue ticket carried. */
  lemma ClaimedCellHoldsValue<T(!new)>(s: State<T>, t: nat, pos: nat)
    requires Inv(s) && OpOf(s, t) == DeqClaimed(pos)
    ensures pos < |s.claimed| && DataAt(s, pos) == s.claimed[pos]
    ensures CellOk(s, pos + s.cap) && Published(s, pos + s.cap)
  {
    assert OpOk(s, t);
    NextLap(pos, s.cap);
    assert CellOk(s, pos + s.cap);
  }

  lemma MoveOut<T(!new)>(s: State<T>, t: nat, pos: nat, residue: T)
    requires Inv(s) && OpOf(s, t) == DeqClaimed(pos)
    ensures Inv(StepDeq(s, t, false, residue))
  {
    var r := StepDeq(s, t, false, residue);
    assert OpOk(s, t);
    ClaimedCellHoldsValue(s, t, pos);
    forall q: nat | r.enq <= q < r.enq + r.cap
      ensures CellOk(r, q)
    {
      MoveOutCell(s, t, pos, residue, q);
    }
    forall u: nat ensures OpOk(r, u) {
      assert OpOk(s, u);
      if u != t && OpOf(s, u).EnqStored? {
        SlotsApart(OpOf(s, u).pos, pos, s.cap);
      }
    }
    forall p: nat | p < r.deq ensures TicketOk(r, p) {
      assert TicketOk(s, p);
    }
  }

  lemma MoveOutCell<T(!new)>(s: State<T>, t: nat, pos: nat, residue: T, q: nat)
    requires Inv(s) && OpOf(s, t) == DeqClaimed(pos) && s.enq <= q < s.enq + s.cap
    ensures CellOk(StepDeq(s, t, false, residue), q)
  {
    var r := StepDeq(s, t, false, residue);
    assert OpOk(s, t) && CellOk(s, q);
    NextLap(pos, s.cap);
    if q != pos + s.cap {
      SlotsApart(q, pos + s.cap, s.cap);
    } else {
      ClaimedCellHoldsValue(s, t, pos);
      assert Published(r, q);
    }
  }

  lemma ReleaseCell<T(!new)>(s: State<T>, t: nat, v: T, pos: nat, residue: T, q: nat)
    requires Inv(s) && OpOf(s, t) == DeqMoved(v, pos) && s.enq <= q < s.enq + s.cap
    ensures CellOk(StepDeq(s, t, false, residue), q)
  {
    assert OpOk(s, t) && CellOk(s, q);
    NextLap(pos, s.cap);
    if q == pos + s.cap {
      assert Free(StepDeq(s, t, false, residue), q);
    } else {
      SlotsApart(q, pos + s.cap, s.cap);
    }
  }

  lemma ReleaseOp<T(!new)>(s: State<T>, t: nat, v: T, pos: nat, residue: T, u: nat)
    requires Inv(s) && OpOf(s, t) == DeqMoved(v, pos)
    ensures OpOk(StepDeq(s, t, false, residue), u)
  {
    assert OpOk(s, t) && OpOk(s, u);
    if u != t { OtherOpKept(s, u, t, pos); }
  }

  lemma Release<T(!new)>(s: State<T>, t: nat, v: T, pos: nat, residue: T)
    requires Inv(s) && OpOf(s, t) == DeqMoved(v, pos)
    ensures Inv(StepDeq(s, t, false, residue))
  {
    var r := StepDeq(s, t, false, residue);
    forall q: nat | r.enq <= q < r.enq + r.cap ensures CellOk(r, q) { ReleaseCell(s, t, v, pos, residue, q); }
    forall u: nat ensures OpOk(r, u) { ReleaseOp(s, t, v, pos, residue, u); }
    forall p: nat | p < r.deq ensures TicketOk(r, p) { assert TicketOk(s, p); }
  }

  /** Every atomic step of every thread keeps the invariant. */
  lemma StepInv<T(!new)>(s: State<T>, a: Action<T>)
    requires Inv(s)
    ensures Inv(Step(s, a))
  {
    match a
    case StartEnq(t, v) => if OpOf(s, t).Idle? { LocalStep(s, t, EnqLoaded(v, s.enq)); }
    case StartDeq(t) => if OpOf(s, t).Idle? { LocalStep(s, t, DeqLoaded(s.deq)); }
    case Go(t, spurious, residue) => GoInv(s, t, spurious, residue);
  }

  lemma GoInv<T(!new)>(s: State<T>, t: nat, spurious: bool, residue: T)
    requires Inv(s)
    ensures Inv(Step(s, Go(t, spurious, residue)))
  {
    if Enqueuing(OpOf(s, t)) {
      EnqInv(s, t, spurious);
    } else if !OpOf(s, t).Idle? {
      DeqInv(s, t, spurious, residue);
    }
  }

  lemma EnqInv<T(!new)>(s: State<T>, t: nat, spurious: bool)
    requires Inv(s) && Enqueuing(OpOf(s, t))
    ensures Inv(StepEnq(s, t, spurious))
  {
    assert OpOk(s, t);
    match OpOf(s, t)
    case EnqLoaded(v, pos) =>
      LocalStep(s, t, if SeqAt(s, pos) == pos then EnqReady(v, pos) else if SeqAt(s, pos) < pos then Idle else EnqReload(v));
    case EnqReload(v) => LocalStep(s, t, EnqLoaded(v, s.enq));
    case EnqReady(v, pos) =>
      if s.enq == pos && !spurious { ClaimEnq(s, t, v); } else { LocalStep(s, t, EnqLoaded(v, s.enq)); }
    case EnqClaimed(v, pos) => StoreData(s, t, v, pos);
    case EnqStored(v, pos) => Publish(s, t, v, pos);
    case _ =>
  }

  lemma DeqInv<T(!new)>(s: State<T>, t: nat, spurious: bool, residue: T)
    requires Inv(s) && !Enqueuing(OpOf(s, t)) && !OpOf(s, t).Idle?
    ensures Inv(StepDeq(s, t, spurious, residue))
  {
    assert OpOk(s, t);
    match OpOf(s, t)
    case DeqLoaded(pos) =>
      if pos == s.deq && SeqAt(s, pos) == pos + 1 { PublishedMeansClaimed(s, pos); }
      LocalStep(s, t, if SeqAt(s, pos) == pos + 1 then DeqReady(pos) else if SeqAt(s, pos) < pos + 1 then Idle else DeqReload);
    case DeqReload => LocalStep(s, t, DeqLoaded(s.deq));
    case DeqReady(pos) =>
      if s.deq == pos && !spurious { ClaimDeq(s, t, residue); } else { LocalStep(s, t, DeqLoaded(s.deq)); }
    case DeqClaimed(pos) => MoveOut(s, t, pos, residue);
    case DeqMoved(v, pos) => Release(s, t, v, pos, residue);
    case _ =>
  }

  lemma PublishedMeansClaimed<T(!new)>(s: State<T>, p: nat)
    requires Inv(s) && s.deq <= p <= s.enq && SeqAt(s, p) == p + 1
    ensures p < s.enq
  {
    assert p == s.enq ==> CellOk(s, p);
  }

  /** Safety over whole runs: the invariant holds after any interleaving of any length. */
  lemma {:induction false} RunInv<T(!new)>(s: State<T>, acts: seq<Action<T>>)
    requires Inv(s)
    ensures Inv(Run(s, acts))
  {
    if acts != [] {
      RunInv(s, acts[..|acts| - 1]);
      StepInv(Run(s, acts[..|acts| - 1]), acts[|acts| - 1]);
    }
  }

  // ---------------------------------------------------------------- what every run guarantees

  lemma Reachable<T(!new)>(data: seq<T>, acts: seq<Action<T>>)
    requires |data| >= 2
    ensures Inv(Run(Initial(data), acts))
  {
    InitialInv(data);
    RunInv(Initial(data), acts);
  }

  /** In every interleaving two operations never own the same cell at the same time. */
  lemma ExclusiveCells<T(!new)>(data: seq<T>, acts: seq<Action<T>>, t: nat, u: nat)
    requires |data| >= 2 && t != u
    requires var s := Run(Initial(data), acts); Owns(OpOf(s, t)) && Owns(OpOf(s, u))
    ensures var s := Run(Initial(data), acts);
            Slot(OpOf(s, t).pos, s.cap) != Slot(OpOf(s, u).pos, s.cap)
  {
    Reachable(data, acts);
    var s := Run(Initial(data), acts);
    OtherOpKept(s, u, t, OpOf(s, t).pos);
  }

  /** In every interleaving the ring is never over-filled, and the value moved out for a ticket
      is the value stored for it: in ticket order the values taken are a prefix of the values
      accepted, complete once no dequeue sits between its claim and its move. */
  lemma FifoConservation<T(!new)>(data: seq<T>, acts: seq<Action<T>>)
    requires |data| >= 2
    ensures var s := Run(Initial(data), acts);
            s.deq <= s.enq <= s.deq + s.cap && |s.claimed| == s.enq
    ensures var s := Run(Initial(data), acts);
            forall p <- s.taken :: p < s.deq && s.taken[p] == s.claimed[p]
    ensures var s := Run(Initial(data), acts);
            (forall t: nat :: !OpOf(s, t).DeqClaimed?) ==> forall p: nat :: p < s.deq ==> p in s.taken
  {
    Reachable(data, acts);
    TakenIsPrefix(Run(Initial(data), acts));
  }

  /** Tickets are handed out in order of time: histories only grow, and a thread in possession of a ticket
      older than some earlier state already had it then. */
  ghost predicate Later<T>(s: State<T>, r: State<T>) {
    Grown(s, r) && forall t: nat :: HadIt(s, OpOf(s, t), OpOf(r, t))
  }

  ghost predicate Grown<T>(s: State<T>, r: State<T>) {
    s.claimed <= r.claimed && s.enq <= r.enq && s.deq <= r.deq
  }

  predicate HadIt<T>(s: State<T>, was: Op<T>, now: Op<T>) {
    && (EnqOwned(now) && now.pos < s.enq ==> EnqOwned(was) && was.pos == now.pos)
    && (DeqOwned(now) && now.pos < s.deq ==> DeqOwned(was) && was.pos == now.pos)
  }

  predicate EnqOwned<T>(op: Op<T>) {
    op.EnqClaimed? || op.EnqStored?
  }

  predicate DeqOwned<T>(op: Op<T>) {
    op.DeqClaimed? || op.DeqMoved?
  }

  /** What one step of thread `t` does to the counters and to the operations of all threads. */
  ghost predicate Moved<T>(r: State<T>, n: State<T>, t: nat) {
    && Grown(r, n)
    && (forall u: nat :: u != t ==> OpOf(n, u) == OpOf(r, u))
    && (EnqOwned(OpOf(n, t)) ==>
          OpOf(n, t).pos >= r.enq || (EnqOwned(OpOf(r, t)) && OpOf(n, t).pos == OpOf(r, t).pos))
    && (DeqOwned(OpOf(n, t)) ==>
          OpOf(n, t).pos >= r.deq || (DeqOwned(OpOf(r, t)) && OpOf(n, t).pos == OpOf(r, t).pos))
  }

  lemma StepEnqMoves<T(!new)>(r: State<T>, t: nat, spurious: bool)
    requires Shape(r) && Enqueuing(OpOf(r, t))
    ensures Moved(r, StepEnq(r, t, spurious), t)
  {
  }

  lemma StepDeqMoves<T(!new)>(r: State<T>, t: nat, spurious: bool, residue: T)
    requires Shape(r) && !Enqueuing(OpOf(r, t))
    ensures Moved(r, StepDeq(r, t, spurious, residue), t)
  {
  }

  lemma MovedKeepsLater<T(!new)>(s: State<T>, r: State<T>, n: State<T>, t: nat)
    requires Later(s, r) && Moved(r, n, t)
    ensures Later(s, n)
  {
    forall u: nat ensures HadIt(s, OpOf(s, u), OpOf(n, u)) {
      assert HadIt(s, OpOf(s, u), OpOf(r, u));
    }
  }

  lemma LaterStep<T(!new)>(s: State<T>, r: State<T>, a: Action<T>)
    requires Shape(r) && Later(s, r)
    ensures Later(s, Step(r, a))
  {
    if a.Go? {
      if Enqueuing(OpOf(r, a.t)) {
        StepEnqMoves(r, a.t, a.spurious);
      } else {
        StepDeqMoves(r, a.t, a.spurious, a.residue);
      }
    }
    MovedKeepsLater(s, r, Step(r, a), a.t);
  }

  lemma {:induction false} LaterRun<T(!new)>(s: State<T>, acts: seq<Action<T>>)
    requires Shape(s)
    ensures Later(s, Run(s, acts))
  {
    if acts != [] {
      LaterRun(s, acts[..|acts| - 1]);
      LaterStep(s, Run(s, acts[..|acts| - 1]), acts[|acts| - 1]);
    }
  }

  /** Real time: when an enqueue has its ticket, as every one that has returned true does, before another
      begins, the other gets a later ticket, so its value is taken later; likewise for dequeues. */
  lemma RealTimeOrder<T(!new)>(data: seq<T>, before: seq<Action<T>>, after: seq<Action<T>>, t: nat, p: nat)
    requires |data| >= 2
    ensures var s, r := Run(Initial(data), before), Run(Run(Initial(data), before), after);
      && s.claimed <= r.claimed
      && (OpOf(s, t).Idle? && EnqOwned(OpOf(r, t)) && p < s.enq ==> p < OpOf(r, t).pos && (OpOf(r, t).pos < r.deq ==> p < r.deq))
      && (OpOf(s, t).Idle? && DeqOwned(OpOf(r, t)) && p < s.deq ==> p < OpOf(r, t).pos)
  {
    var s, r := Run(Initial(data), before), Run(Run(Initial(data), before), after);
    LaterRun(s, after);
    assert HadIt(s, OpOf(s, t), OpOf(r, t));
  }

  lemma TakenIsPrefix<T(!new)>(s: State<T>)
    requires Inv(s)
    ensures forall p <- s.taken :: p < s.deq && s.taken[p] == s.claimed[p]
    ensures (forall t: nat :: !OpOf(s, t).DeqClaimed?) ==> forall p: nat :: p < s.deq ==> p in s.taken
  {
    forall p <- s.taken ensures s.taken[p] == s.claimed[p] {
      assert TicketOk(s, p);
    }
    if forall t: nat :: !OpOf(s, t).DeqClaimed? {
      forall p: nat | p < s.deq ensures p in s.taken {
        assert TicketOk(s, p);
      }
    }
  }

  /** The ticket of the current window that uses the same cell as an old ticket. */
  lemma {:induction false} CurrentTicket(p: nat, lo: nat, cap: nat) returns (q: nat)
    requires cap > 0 && p < lo
    ensures lo <= q < lo + cap && q >= p + cap && Slot(q, cap) == Slot(p, cap)
    decreases lo - p
  {
    NextLap(p, cap);
    if p + cap < lo {
      q := CurrentTicket(p + cap, lo, cap);
    } else {
      q := p + cap;
    }
  }

  /** An enqueue that reads its cell reports "full" exactly when its position is current and the
      ticket one lap back has not been released: the ring is full, or a dequeue is mid-move. */
  lemma FullVerdict<T(!new)>(s: State<T>, t: nat, v: T, pos: nat)
    requires Inv(s) && OpOf(s, t) == EnqLoaded(v, pos)
    ensures SeqAt(s, pos) < pos
       <==> pos == s.enq && (s.enq == s.deq + s.cap || (s.cap <= pos && Reading(s, pos - s.cap)))
  {
    assert OpOk(s, t);
    if pos < s.enq {
      var q := CurrentTicket(pos, s.enq, s.cap);
      assert CellOk(s, q);
    } else {
      assert CellOk(s, pos);
      if s.cap <= pos {
        NextLap(pos - s.cap, s.cap);
        if Reading(s, pos - s.cap) {
          assert OpOk(s, s.deqBy[pos - s.cap]);
        }
      }
    }
  }

  /** A dequeue that reads its cell reports "empty" exactly when its position is current and
      either nothing is queued or the oldest accepted item is not published yet. */
  lemma EmptyVerdict<T(!new)>(s: State<T>, t: nat, pos: nat)
    requires Inv(s) && OpOf(s, t) == DeqLoaded(pos)
    ensures SeqAt(s, pos) < pos + 1
       <==> pos == s.deq && (s.enq == s.deq || Writing(s, s.deq))
  {
    assert OpOk(s, t);
    if pos < s.deq {
      var q := CurrentTicket(pos, s.enq, s.cap);
      assert CellOk(s, q);
    } else {
      NextLap(pos, s.cap);
      if s.enq == s.deq {
        assert CellOk(s, pos);
      } else {
        assert CellOk(s, pos + s.cap);
        if Writing(s, s.deq) { assert OpOk(s, s.enqBy[s.deq]); }
      }
    }
  }

  lemma RunSnoc<T>(s: State<T>, acts: seq<Action<T>>, a: Action<T>)
    requires Shape(s)
    ensures Run(s, acts + [a]) == Step(Run(s, acts), a)
  {
    assert (acts + [a])[..|acts|] == acts;
  }

  /** "Empty" is not linearizable: a run where `tryDequeue` gives up although a later item is
      already published and its `tryEnqueue` has returned true. */
  lemma EmptyWhilePublished()
    ensures exists acts: seq<Action<int>> ::
              var s := Run(Initial([0, 0]), acts);
              && OpOf(s, 3) == DeqLoaded(0) && OpOf(Step(s, Go(3, false, 0)), 3).Idle?
              && OpOf(s, 2).Idle? && s.claimed == [10, 20] && SeqAt(s, 1) == 2 && s.deq == 0
  {
    var s0 := Initial([0, 0]);
    var rest := [Go(2, false, 0), Go(2, false, 0), Go(2, false, 0), Go(2, false, 0)];
    var first := FirstStalls(s0);
    SecondPublishes(Run(s0, first));
    RunConcat(s0, first, rest);
    RunSnoc(s0, first + rest, StartDeq(3));
    assert Run(s0, first + rest) == Half([0, 2], [0, 20], [10, 20], [1, 2], Idle);
    ThirdSeesEmpty(Run(s0, first + rest + [StartDeq(3)]));
  }

  lemma ThirdSeesEmpty(s: State<int>)
    requires s == Step(Half([0, 2], [0, 20], [10, 20], [1, 2], Idle), StartDeq(3))
    ensures OpOf(s, 3) == DeqLoaded(0) && OpOf(Step(s, Go(3, false, 0)), 3).Idle?
    ensures OpOf(s, 2).Idle? && s.claimed == [10, 20] && SeqAt(s, 1) == 2 && s.deq == 0
  {
    assert SeqAt(s, 0) == 0;
  }

  lemma FirstStalls(s0: State<int>) returns (acts: seq<Action<int>>)
    requires s0 == Initial([0, 0])
    ensures Run(s0, acts) == Half([0, 1], [0, 0], [10], [1], EnqLoaded(20, 1))
  {
    var go, start2 := Go(1, false, 0), StartEnq(2, 20);
    assert s0.seqs == [0, 1];
    RunTwo(s0, [], StartEnq(1, 10), go);
    RunTwo(s0, [] + [StartEnq(1, 10), go], go, start2);
    assert Step(Step(s0, StartEnq(1, 10)), go) == State(2, [0, 1], [0, 0], 0, 0, map[1 := EnqReady(10, 0)], [], [], [], map[]);
    acts := [] + [StartEnq(1, 10), go] + [go, start2];
  }

  /** Two cells, thread 1 stalled on ticket 0, thread 2 somewhere inside its enqueue. */
  function Half(seqs: seq<nat>, data: seq<int>, claimed: seq<int>, claimers: seq<nat>, op: Op<int>): State<int> {
    State(2, seqs, data, |claimed|, 0, map[1 := EnqClaimed(10, 0), 2 := op], claimed, claimers, [], map[])
  }

  lemma SecondPublishes(s4: State<int>)
    requires s4 == Half([0, 1], [0, 0], [10], [1], EnqLoaded(20, 1))
    ensures Run(s4, [Go(2, false, 0), Go(2, false, 0), Go(2, false, 0), Go(2, false, 0)])
         == Half([0, 2], [0, 20], [10, 20], [1, 2], Idle)
  {
    var b := Go(2, false, 0);
    RunTwo(s4, [], b, b);
    RunTwo(s4, [b, b], b, b);
    assert [] + [b, b] == [b, b] && [b, b] + [b, b] == [b, b, b, b];
    assert Slot(1, 2) == 1;
    assert Step(s4, b) == Half([0, 1], [0, 0], [10], [1], EnqReady(20, 1));
    assert Step(Step(s4, b), b) == Half([0, 1], [0, 0], [10, 20], [1, 2], EnqClaimed(20, 1));
    PublishesItemTwo();
  }

  lemma PublishesItemTwo()
    ensures Step(Step(Half([0, 1], [0, 0], [10, 20], [1, 2], EnqClaimed(20, 1)), Go(2, false, 0)), Go(2, false, 0))
         == Half([0, 2], [0, 20], [10, 20], [1, 2], Idle)
  {
    assert Slot(1, 2) == 1;
    assert [0, 0][1 := 20] == [0, 20] && [0, 1][1 := 2] == [0, 2];
    var s6 := Half([0, 1], [0, 0], [10, 20], [1, 2], EnqClaimed(20, 1));
    assert Step(s6, Go(2, false, 0)) == Half([0, 1], [0, 20], [10, 20], [1, 2], EnqStored(20, 1));
  }

  lemma {:induction false} RunConcat<T>(s: State<T>, a: seq<Action<T>>, b: seq<Action<T>>)
    requires Shape(s)
    ensures Run(s, a + b) == Run(Run(s, a), b)
    decreases |b|
  {
    if b == [] {
      assert a + b == a;
    } else {
      assert (a + b)[..|a + b| - 1] == a + b[..|b| - 1];
      RunConcat(s, a, b[..|b| - 1]);
    }
  }

  lemma RunTwo<T>(s: State<T>, acts: seq<Action<T>>, a: Action<T>, b: Action<T>)
    requires Shape(s)
    ensures Run(s, acts + [a, b]) == Step(Step(Run(s, acts), a), b)
  {
    RunSnoc(s, acts, a);
    RunSnoc(s, acts + [a], b);
    assert acts + [a, b] == acts + [a] + [b];
  }

  /** With no operation in flight the cells hold exactly the accepted, untaken items in order. */
  lemma QuiescentCells<T(!new)>(s: State<T>, p: nat)
    requires Inv(s) && forall t: nat :: OpOf(s, t).Idle?
    ensures s.deq <= p < s.enq ==> SeqAt(s, p) == p + 1 && DataAt(s, p) == s.claimed[p]
    ensures s.enq <= p < s.deq + s.cap ==> SeqAt(s, p) == p
  {
    if s.deq <= p < s.enq {
      NextLap(p, s.cap);
      assert CellOk(s, p + s.cap);
    } else if s.enq <= p < s.deq + s.cap {
      assert CellOk(s, p);
    }
  }
}
