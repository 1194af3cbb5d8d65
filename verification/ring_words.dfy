/** The queue's machine once more, computing as the program does: positions and sequences are 64-bit
    words that wrap, a cell is found by masking, and cells are compared by a signed difference. */
module RingWords {
  import opened RingArithmetic
  import opened MpmcMachine

  /** The cell a position is masked to. */
  function Cell(pos: nat, cap: nat): (c: nat)
    requires cap > 0
    ensures c < cap
  {
    BitAnd(Wrapped(pos), cap - 1)
  }

  function Wrapped(n: nat): (w: nat)
    ensures w < WORD
  {
    n % WORD
  }

  /** The program's `diff`. */
  function Diff(sequence: nat, pos: nat): int {
    AsSigned(Wrapped(sequence)) - AsSigned(Wrapped(pos))
  }

  function WordStepEnq<T>(s: State<T>, t: nat, spurious: bool): (r: State<T>)
    requires Shape(s)
    ensures Shape(r)
  {
    match OpOf(s, t)
    case EnqLoaded(v, pos) =>
      var diff := Diff(s.seqs[Cell(pos, s.cap)], pos);
      if diff == 0 then SetOp(s, t, EnqReady(v, pos))
      else if diff < 0 then SetOp(s, t, Idle)
      else SetOp(s, t, EnqReload(v))
    case EnqReload(v) => SetOp(s, t, EnqLoaded(v, s.enq))
    case EnqReady(v, pos) =>
      if s.enq == pos && !spurious then
        SetOp(s, t, EnqClaimed(v, pos)).(enq := Wrapped(pos + 1), claimed := s.claimed + [v], enqBy := s.enqBy + [t])
      else SetOp(s, t, EnqLoaded(v, s.enq))
    case EnqClaimed(v, pos) => SetOp(s, t, EnqStored(v, pos)).(data := s.data[Cell(pos, s.cap) := v])
    case EnqStored(v, pos) => SetOp(s, t, Idle).(seqs := s.seqs[Cell(pos, s.cap) := Wrapped(pos + 1)])
    case _ => s
  }

  function WordStepDeq<T>(s: State<T>, t: nat, spurious: bool, residue: T): (r: State<T>)
    requires Shape(s)
    ensures Shape(r)
  {
    match OpOf(s, t)
    case DeqLoaded(pos) =>
      var diff := Diff(s.seqs[Cell(pos, s.cap)], pos + 1);
      if diff == 0 then SetOp(s, t, DeqReady(pos))
      else if diff < 0 then SetOp(s, t, Idle)
      else SetOp(s, t, DeqReload)
    case DeqReload => SetOp(s, t, DeqLoaded(s.deq))
    case DeqReady(pos) =>
      if s.deq == pos && !spurious then
        SetOp(s, t, DeqClaimed(pos)).(deq := Wrapped(pos + 1), deqBy := s.deqBy + [t])
      else SetOp(s, t, DeqLoaded(s.deq))
    case DeqClaimed(pos) =>
      var v := s.data[Cell(pos, s.cap)];
      SetOp(s, t, DeqMoved(v, pos)).(taken := s.taken[pos := v], data := s.data[Cell(pos, s.cap) := residue])
    case DeqMoved(v, pos) => SetOp(s, t, Idle).(seqs := s.seqs[Cell(pos, s.cap) := Wrapped(pos + s.cap)])
    case _ => s
  }

  function WordStep<T>(s: State<T>, a: Action<T>): (r: State<T>)
    requires Shape(s)
    ensures Shape(r)
  {
    match a
    case StartEnq(t, v) => if OpOf(s, t).Idle? then SetOp(s, t, EnqLoaded(v, s.enq)) else s
    case StartDeq(t) => if OpOf(s, t).Idle? then SetOp(s, t, DeqLoaded(s.deq)) else s
    case Go(t, spurious, residue) =>
      if Enqueuing(OpOf(s, t)) then WordStepEnq(s, t, spurious) else WordStepDeq(s, t, spurious, residue)
  }

  function WordRun<T>(s: State<T>, acts: seq<Action<T>>): (r: State<T>)
    requires Shape(s)
    ensures Shape(r)
  {
    if acts == [] then s else WordStep(WordRun(s, acts[..|acts| - 1]), acts[|acts| - 1])
  }

  // ---- How large the numbers get ----

  /** The window ticket that uses a given cell. */
  lemma {:induction false} TicketOfCell(c: nat, lo: nat, cap: nat) returns (q: nat)
    requires c < cap
    ensures lo <= q < lo + cap && Slot(q, cap) == c
    decreases lo
  {
    if lo <= c {
      q := c;
    } else if lo < cap {
      q := c + cap;
    } else {
      q := TicketOfCell(c, lo - cap, cap);
      q := q + cap;
    }
  }

  /** No cell's sequence reaches the enqueue position plus one lap. */
  lemma SequencesBelow<T(!new)>(s: State<T>, c: nat)
    requires Inv(s) && c < s.cap
    ensures s.seqs[c] < s.enq + s.cap
  {
    var q := TicketOfCell(c, s.enq, s.cap);
    assert CellOk(s, q);
  }

  /** The position an operation holds, if it holds one. */
  function HeldPos<T>(op: Op<T>): nat {
    match op
    case EnqLoaded(_, pos) => pos
    case EnqReady(_, pos) => pos
    case EnqClaimed(_, pos) => pos
    case EnqStored(_, pos) => pos
    case DeqLoaded(pos) => pos
    case DeqReady(pos) => pos
    case DeqClaimed(pos) => pos
    case DeqMoved(_, pos) => pos
    case _ => 0
  }

  lemma PositionsBelow<T(!new)>(s: State<T>, t: nat)
    requires Inv(s)
    ensures HeldPos(OpOf(s, t)) <= s.enq
  {
    assert OpOk(s, t);
  }

  /** While `enq + cap` has not passed 2^63, every number the queue stores, holds or compares lies
      below 2^63. */
  lemma NumbersBelowHalf<T(!new)>(s: State<T>, c: nat, t: nat)
    requires Inv(s) && s.enq + s.cap <= HALF && c < s.cap
    ensures s.seqs[c] < HALF && s.enq < HALF && s.deq < HALF
    ensures HeldPos(OpOf(s, t)) + 1 < HALF && HeldPos(OpOf(s, t)) + s.cap <= HALF
  {
    SequencesBelow(s, c);
    PositionsBelow(s, t);
  }

  // ---- The two machines agree ----

  lemma MaskIsSlot(pos: nat, cap: nat, k: nat)
    requires cap == Pow2(k) && pos < WORD
    ensures Cell(pos, cap) == Slot(pos, cap)
  {
    FitsWord(pos);
    MaskIsModulo(pos, k);
    SlotIsModulo(pos, cap);
  }

  lemma FitsWord(n: nat)
    requires n < WORD
    ensures Wrapped(n) == n
  {}

  lemma DiffIsTrue(sequence: nat, pos: nat)
    requires sequence < HALF && pos < HALF
    ensures Diff(sequence, pos) == sequence - pos
  {
    SignedDifferenceExact(sequence, pos);
  }

  /** The word arithmetic one operation does with its position comes out true. */
  ghost predicate Exact<T>(s: State<T>, pos: nat)
    requires Shape(s)
  {
    && Cell(pos, s.cap) == Slot(pos, s.cap)
    && Diff(SeqAt(s, pos), pos) == SeqAt(s, pos) - pos
    && Diff(SeqAt(s, pos), pos + 1) == SeqAt(s, pos) - (pos + 1)
    && Wrapped(pos + 1) == pos + 1 && Wrapped(pos + s.cap) == pos + s.cap
  }

  lemma HeldIsExact<T(!new)>(s: State<T>, t: nat, k: nat)
    requires Inv(s) && s.cap == Pow2(k) && s.enq + s.cap <= HALF
    ensures Exact(s, HeldPos(OpOf(s, t)))
  {
    var pos := HeldPos(OpOf(s, t));
    NumbersBelowHalf(s, Slot(pos, s.cap), t);
    MaskIsSlot(pos, s.cap, k);
    DiffIsTrue(SeqAt(s, pos), pos);
    DiffIsTrue(SeqAt(s, pos), pos + 1);
  }

  lemma ExactEnq<T>(s: State<T>, t: nat, spurious: bool)
    requires Shape(s) && Exact(s, HeldPos(OpOf(s, t)))
    ensures WordStepEnq(s, t, spurious) == StepEnq(s, t, spurious)
  {}

  lemma ExactDeq<T>(s: State<T>, t: nat, spurious: bool, residue: T)
    requires Shape(s) && Exact(s, HeldPos(OpOf(s, t)))
    ensures WordStepDeq(s, t, spurious, residue) == StepDeq(s, t, spurious, residue)
  {}

  /** One step on words is the step on unbounded numbers: every comparison, every cell and every stored
      word is the one of the unbounded machine. */
  lemma WordStepIsStep<T(!new)>(s: State<T>, a: Action<T>, k: nat)
    requires Inv(s) && s.cap == Pow2(k) && s.enq + s.cap <= HALF
    ensures WordStep(s, a) == Step(s, a)
  {
    if a.Go? {
      HeldIsExact(s, a.t, k);
      ExactEnq(s, a.t, a.spurious);
      ExactDeq(s, a.t, a.spurious, a.residue);
    }
  }

  lemma EnqueuePositionGrows<T>(s: State<T>, a: Action<T>)
    requires Shape(s)
    ensures Step(s, a).enq >= s.enq && Step(s, a).cap == s.cap
  {}

  /** From the constructor's state, for any interleaving that issues at most 2^63 - cap enqueue tickets,
      the program's words go through exactly the states of the machine over unbounded tickets, so
      everything proved of that machine holds of them. */
  lemma {:induction false} WordRunIsRun<T(!new)>(data: seq<T>, acts: seq<Action<T>>, k: nat)
    requires |data| == Pow2(k) && k >= 1
    requires Run(Initial(data), acts).enq + |data| <= HALF
    ensures WordRun(Initial(data), acts) == Run(Initial(data), acts)
    ensures Run(Initial(data), acts).cap == |data|
    decreases |acts|
  {
    if acts != [] {
      var before, a := acts[..|acts| - 1], acts[|acts| - 1];
      EnqueuePositionGrows(Run(Initial(data), before), a);
      WordRunIsRun(data, before, k);
      Reachable(data, before);
      WordStepIsStep(Run(Initial(data), before), a, k);
    }
  }
}
