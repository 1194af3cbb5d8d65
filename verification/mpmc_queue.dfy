/** The queue object itself, one caller at a time: array cells updated in place, proved both to
    follow the atomic steps of `MpmcMachine` and to be a bounded first-in-first-out sequence. */
module MpmcQueues {
  import opened RingArithmetic
  import opened MpmcMachine

  /** `b` is `a` after some schedule, once every caller has returned. */
  ghost predicate Reaches<T(!new)>(a: State<T>, b: State<T>)
    requires Shape(a)
  {
    exists acts: seq<Action<T>> :: Run(a, acts).(ops := map[]) == b
  }

  /** The quiet ring after one whole enqueue, and after one whole dequeue. */
  function Enqueued<T>(s: State<T>, item: T): State<T>
    requires Shape(s)
  {
    if s.enq == s.deq + s.cap then s
    else s.(seqs := s.seqs[Slot(s.enq, s.cap) := s.enq + 1], data := s.data[Slot(s.enq, s.cap) := item],
            enq := s.enq + 1, claimed := s.claimed + [item], enqBy := s.enqBy + [0])
  }

  function Dequeued<T>(s: State<T>, residue: T): State<T>
    requires Shape(s)
  {
    if s.enq == s.deq then s
    else s.(seqs := s.seqs[Slot(s.deq, s.cap) := s.deq + s.cap], data := s.data[Slot(s.deq, s.cap) := residue],
            deq := s.deq + 1, deqBy := s.deqBy + [0], taken := s.taken[s.deq := DataAt(s, s.deq)])
  }

  /** Forgetting idle threads keeps the invariant. */
  lemma IdleInv<T(!new)>(s: State<T>)
    requires Inv(s) && forall t: nat :: OpOf(s, t).Idle?
    ensures Inv(s.(ops := map[]))
  {
    var r := s.(ops := map[]);
    forall q: nat | r.enq <= q < r.enq + r.cap
      ensures CellOk(r, q)
    {
      assert CellOk(s, q);
    }
    forall p: nat | p < r.deq
      ensures TicketOk(r, p)
    {
      assert TicketOk(s, p);
    }
  }

  /** The first `n` uninterrupted steps of one call. */
  function Solo<T>(s: State<T>, first: Action<T>, go: Action<T>, n: nat): State<T>
    requires Shape(s)
    ensures Shape(Solo(s, first, go, n))
  {
    if n == 0 then Step(s, first) else Step(Solo(s, first, go, n - 1), go)
  }

  lemma {:induction false} SoloIsRun<T>(s: State<T>, first: Action<T>, go: Action<T>, n: nat) returns (acts: seq<Action<T>>)
    requires Shape(s)
    ensures Run(s, acts) == Solo(s, first, go, n)
  {
    if n == 0 {
      RunSnoc(s, [], first);
      acts := [] + [first];
    } else {
      acts := SoloIsRun(s, first, go, n - 1);
      RunSnoc(s, acts, go);
      acts := acts + [go];
    }
  }

  lemma SoloTwoMore<T>(s: State<T>, first: Action<T>, go: Action<T>, n: nat)
    requires Shape(s)
    ensures Solo(s, first, go, n + 2) == Step(Step(Solo(s, first, go, n), go), go)
  {
  }

  lemma EnqueueEffect<T>(s: State<T>, item: T)
    requires Shape(s) && s.enq < s.deq + s.cap
    ensures var s2 := s.(ops := map[0 := EnqClaimed(item, s.enq)], enq := s.enq + 1, claimed := s.claimed + [item], enqBy := s.enqBy + [0]);
            Step(Step(s2, Go(0, false, item)), Go(0, false, item)) == Enqueued(s, item).(ops := map[0 := Idle])
  {
    var s2 := s.(ops := map[0 := EnqClaimed(item, s.enq)], enq := s.enq + 1, claimed := s.claimed + [item], enqBy := s.enqBy + [0]);
    FinishEnqueue(s2, item, s.enq);
  }

  lemma SoloEnqueueSteps<T>(s: State<T>, item: T)
    requires Shape(s) && s.ops == map[] && s.enq < s.deq + s.cap && SeqAt(s, s.enq) == s.enq
    ensures Solo(s, StartEnq(0, item), Go(0, false, item), 4) == Enqueued(s, item).(ops := map[0 := Idle])
  {
    BeginEnqueue(s, item);
    EnqueueEffect(s, item);
    SoloTwoMore(s, StartEnq(0, item), Go(0, false, item), 2);
  }

  lemma BeginEnqueue<T>(s: State<T>, item: T)
    requires Shape(s) && s.ops == map[] && s.enq < s.deq + s.cap && SeqAt(s, s.enq) == s.enq
    ensures Solo(s, StartEnq(0, item), Go(0, false, item), 2)
         == s.(ops := map[0 := EnqClaimed(item, s.enq)], enq := s.enq + 1, claimed := s.claimed + [item], enqBy := s.enqBy + [0])
  {
    var first, go := StartEnq(0, item), Go(0, false, item);
    assert Solo(s, first, go, 0) == s.(ops := map[0 := EnqLoaded(item, s.enq)]);
    assert Solo(s, first, go, 1) == s.(ops := map[0 := EnqReady(item, s.enq)]);
  }

  lemma FinishEnqueue<T>(s: State<T>, item: T, pos: nat)
    requires Shape(s) && s.ops == map[0 := EnqClaimed(item, pos)]
    ensures Step(Step(s, Go(0, false, item)), Go(0, false, item))
         == s.(ops := map[0 := Idle], data := s.data[Slot(pos, s.cap) := item], seqs := s.seqs[Slot(pos, s.cap) := pos + 1])
  {
    var s3 := Step(s, Go(0, false, item));
    assert s3 == s.(ops := map[0 := EnqStored(item, pos)], data := s.data[Slot(pos, s.cap) := item]);
  }

  lemma DequeueEffect<T>(s: State<T>, residue: T)
    requires Shape(s) && s.deq < s.enq
    ensures var s2 := s.(ops := map[0 := DeqClaimed(s.deq)], deq := s.deq + 1, deqBy := s.deqBy + [0]);
            Step(Step(s2, Go(0, false, residue)), Go(0, false, residue)) == Dequeued(s, residue).(ops := map[0 := Idle])
  {
    var s2 := s.(ops := map[0 := DeqClaimed(s.deq)], deq := s.deq + 1, deqBy := s.deqBy + [0]);
    FinishDequeue(s2, s.deq, residue);
  }

  lemma SoloDequeueSteps<T>(s: State<T>, residue: T)
    requires Shape(s) && s.ops == map[] && s.deq < s.enq && SeqAt(s, s.deq) == s.deq + 1
    ensures Solo(s, StartDeq(0), Go(0, false, residue), 4) == Dequeued(s, residue).(ops := map[0 := Idle])
  {
    BeginDequeue(s, residue);
    DequeueEffect(s, residue);
    SoloTwoMore(s, StartDeq(0), Go(0, false, residue), 2);
  }

  lemma BeginDequeue<T>(s: State<T>, residue: T)
    requires Shape(s) && s.ops == map[] && s.deq < s.enq && SeqAt(s, s.deq) == s.deq + 1
    ensures Solo(s, StartDeq(0), Go(0, false, residue), 2)
         == s.(ops := map[0 := DeqClaimed(s.deq)], deq := s.deq + 1, deqBy := s.deqBy + [0])
  {
    var first, go := StartDeq(0), Go(0, false, residue);
    assert Solo(s, first, go, 0) == s.(ops := map[0 := DeqLoaded(s.deq)]);
    assert Solo(s, first, go, 1) == s.(ops := map[0 := DeqReady(s.deq)]);
  }

  lemma FinishDequeue<T>(s: State<T>, pos: nat, residue: T)
    requires Shape(s) && s.ops == map[0 := DeqClaimed(pos)]
    ensures Step(Step(s, Go(0, false, residue)), Go(0, false, residue))
         == s.(ops := map[0 := Idle], data := s.data[Slot(pos, s.cap) := residue],
               seqs := s.seqs[Slot(pos, s.cap) := pos + s.cap], taken := s.taken[pos := DataAt(s, pos)])
  {
    var v := DataAt(s, pos);
    var s3 := Step(s, Go(0, false, residue));
    assert s3 == s.(ops := map[0 := DeqMoved(v, pos)], data := s.data[Slot(pos, s.cap) := residue], taken := s.taken[pos := v]);
  }

  lemma QuietEnd<T(!new)>(s: State<T>, first: Action<T>, go: Action<T>, n: nat, end: State<T>)
    requires Inv(s) && end.ops == map[] && Solo(s, first, go, n) == end.(ops := map[0 := Idle])
    ensures Inv(end) && Reaches(s, end)
  {
    var acts := SoloIsRun(s, first, go, n);
    RunInv(s, acts);
    IdleInv(Run(s, acts));
    assert Run(s, acts).(ops := map[]) == end;
  }

  /** The machine, left to one enqueuer, ends in `Enqueued`. */
  lemma SoloEnqueue<T(!new)>(s: State<T>, item: T)
    requires Inv(s) && s.ops == map[]
    ensures Inv(Enqueued(s, item)) && Reaches(s, Enqueued(s, item))
  {
    var first, go := StartEnq(0, item), Go(0, false, item);
    QuietVerdicts(s);
    if s.enq == s.deq + s.cap {
      assert Solo(s, first, go, 0) == s.(ops := map[0 := EnqLoaded(item, s.enq)]);
      assert Solo(s, first, go, 1) == s.(ops := map[0 := Idle]);
      QuietEnd(s, first, go, 1, s);
    } else {
      SoloEnqueueSteps(s, item);
      QuietEnd(s, first, go, 4, Enqueued(s, item));
    }
  }

  lemma SoloDequeue<T(!new)>(s: State<T>, residue: T)
    requires Inv(s) && s.ops == map[]
    ensures Inv(Dequeued(s, residue)) && Reaches(s, Dequeued(s, residue))
  {
    var first, go := StartDeq(0), Go(0, false, residue);
    QuietVerdicts(s);
    if s.enq == s.deq {
      assert Solo(s, first, go, 0) == s.(ops := map[0 := DeqLoaded(s.deq)]);
      assert Solo(s, first, go, 1) == s.(ops := map[0 := Idle]);
      QuietEnd(s, first, go, 1, s);
    } else {
      SoloDequeueSteps(s, residue);
      QuietEnd(s, first, go, 4, Dequeued(s, residue));
    }
  }

  /** What a reader of a quiet ring sees at the two positions. */
  lemma QuietVerdicts<T(!new)>(s: State<T>)
    requires Inv(s) && s.ops == map[]
    ensures s.enq < s.deq + s.cap ==> SeqAt(s, s.enq) == s.enq
    ensures s.enq == s.deq + s.cap ==> SeqAt(s, s.enq) < s.enq
    ensures s.deq < s.enq ==> SeqAt(s, s.deq) == s.deq + 1 && DataAt(s, s.deq) == s.claimed[s.deq]
    ensures s.deq == s.enq ==> SeqAt(s, s.deq) < s.deq + 1
  {
    QuiescentCells(s, s.enq);
    QuiescentCells(s, s.deq);
    if s.enq == s.deq + s.cap {
      NextLap(s.deq, s.cap);
    }
  }

  /** `pos & mask` names the cell of ticket `pos`. */
  method CellIndex(pos: nat, mask: nat, ghost width: nat) returns (cell: nat)
    requires mask + 1 == Pow2(width)
    ensures cell == Slot(pos, mask + 1)
  {
    MaskIsModulo(pos, width);
    SlotIsModulo(pos, Pow2(width));
    cell := BitAnd(pos, mask);
  }

  class MpmcQueue<T(0, !new)> {
    const buffer: array<T>
    const sequence: array<nat>
    const mask: nat
    ghost const width: nat
    var enqueuePos: nat
    var dequeuePos: nat
    ghost var claimed: seq<T>
    ghost var enqBy: seq<nat>
    ghost var deqBy: seq<nat>
    ghost var taken: map<nat, T>

    /** The shared memory as a machine state with no call in flight. */
    ghost function View(): State<T>
      reads this, buffer, sequence
    {
      State(sequence.Length, sequence[..], buffer[..], enqueuePos, dequeuePos, map[], claimed, enqBy, deqBy, taken)
    }

    ghost predicate Valid()
      reads this, buffer, sequence
    {
      && (buffer as object) != sequence
      && buffer.Length == sequence.Length == mask + 1 == Pow2(width)
      && Inv(View())
    }

    /** What the queue holds, oldest first. */
    ghost function Items(): seq<T>
      requires Valid()
      reads this, buffer, sequence
    {
      claimed[dequeuePos..]
    }

    constructor (capacity: nat)
      requires capacity <= HALF
      ensures Valid() && fresh(buffer) && fresh(sequence) && Items() == []
      ensures 2 <= buffer.Length && capacity <= buffer.Length
      ensures forall j: nat {:trigger Pow2(j)} :: Pow2(j) >= capacity && Pow2(j) >= 2 ==> buffer.Length <= Pow2(j)
    {
      var size, k := RoundUpPow2(capacity);
      buffer := new T[size];
      var seqs := new nat[size];
      sequence := seqs;
      mask := size - 1;
      width := k;
      enqueuePos, dequeuePos := 0, 0;
      claimed, enqBy, deqBy, taken := [], [], [], map[];
      new;
      for i := 0 to size
        invariant forall j :: 0 <= j < i ==> sequence[j] == j
        invariant enqueuePos == dequeuePos == 0 && claimed == [] && enqBy == deqBy == [] && taken == map[]
      {
        sequence[i] := i;
      }
      assert sequence[..] == seq(size, i => i);
      assert View() == Initial(buffer[..]);
      InitialInv(buffer[..]);
    }

    /** The exchange loop of an enqueue with nobody else running.  `spurious` counts the times
        the weak compare-and-swap fails for no reason before it succeeds. */
    method ClaimEnqueue(item: T, spurious: nat) returns (ok: bool, pos: nat, cell: nat)
      requires Valid()
      modifies this
      ensures ok <==> old(enqueuePos) < old(dequeuePos) + buffer.Length
      ensures pos == old(enqueuePos) && cell == Slot(pos, buffer.Length)
      ensures enqueuePos == (if ok then pos + 1 else pos) && dequeuePos == old(dequeuePos)
      ensures claimed == old(claimed) + (if ok then [item] else []) && enqBy == old(enqBy) + (if ok then [0] else [])
      ensures deqBy == old(deqBy) && taken == old(taken)
    {
      QuietVerdicts(View());
      pos := enqueuePos;
      var failures := spurious;
      while true
        invariant pos == enqueuePos == old(enqueuePos) && dequeuePos == old(dequeuePos)
        invariant claimed == old(claimed) && enqBy == old(enqBy) && deqBy == old(deqBy) && taken == old(taken)
        decreases failures
      {
        cell := CellIndex(pos, mask, width);
        var seqNo: int := sequence[cell];
        var diff: int := seqNo - pos;
        if diff == 0 {
          if failures > 0 {
            failures := failures - 1;  // a failed exchange leaves the current position in pos
          } else {
            enqueuePos := pos + 1;
            claimed, enqBy := claimed + [item], enqBy + [0];
            return true, pos, cell;
          }
        } else if diff < 0 {
          return false, pos, cell;
        } else {
          assert false;  // nobody else advances the ring
        }
      }
    }

    method TryEnqueue(item: T, spurious: nat) returns (ok: bool)
      requires Valid()
      modifies this, buffer, sequence
      ensures Valid()
      ensures ok <==> |old(Items())| < buffer.Length
      ensures Items() == if ok then old(Items()) + [item] else old(Items())
      ensures Reaches(old(View()), View())
    {
      ghost var start := View();
      var pos, cell;
      ok, pos, cell := ClaimEnqueue(item, spurious);
      if ok {
        buffer[cell] := item;
        sequence[cell] := pos + 1;
      }
      assert View() == Enqueued(start, item);
      SoloEnqueue(start, item);
    }

    method ClaimDequeue(spurious: nat) returns (ok: bool, pos: nat, cell: nat)
      requires Valid()
      modifies this
      ensures ok <==> old(dequeuePos) < old(enqueuePos)
      ensures pos == old(dequeuePos) && cell == Slot(pos, buffer.Length)
      ensures dequeuePos == (if ok then pos + 1 else pos) && enqueuePos == old(enqueuePos)
      ensures deqBy == old(deqBy) + (if ok then [0] else [])
      ensures claimed == old(claimed) && enqBy == old(enqBy) && taken == old(taken)
    {
      QuietVerdicts(View());
      pos := dequeuePos;
      var failures := spurious;
      while true
        invariant pos == dequeuePos == old(dequeuePos) && enqueuePos == old(enqueuePos)
        invariant claimed == old(claimed) && enqBy == old(enqBy) && deqBy == old(deqBy) && taken == old(taken)
        decreases failures
      {
        cell := CellIndex(pos, mask, width);
        var seqNo: int := sequence[cell];
        var diff: int := seqNo - (pos + 1);
        if diff == 0 {
          if failures > 0 {
            failures := failures - 1;
          } else {
            dequeuePos := pos + 1;
            deqBy := deqBy + [0];
            return true, pos, cell;
          }
        } else if diff < 0 {
          return false, pos, cell;
        } else {
          assert false;  // nobody else advances the ring
        }
      }
    }

    method TryDequeue(spurious: nat, residue: T) returns (ok: bool, out: T)
      requires Valid()
      modifies this, buffer, sequence
      ensures Valid()
      ensures ok <==> old(Items()) != []
      ensures if ok then old(Items()) == [out] + Items() else Items() == old(Items())
      ensures Reaches(old(View()), View())
    {
      ghost var start := View();
      out := residue;
      var pos, cell;
      QuietVerdicts(start);
      ok, pos, cell := ClaimDequeue(spurious);
      if ok {
        out := buffer[cell];
        taken := taken[pos := out];
        buffer[cell] := residue;  // whatever the move leaves behind
        sequence[cell] := pos + mask + 1;
      }
      assert View() == Dequeued(start, residue);
      SoloDequeue(start, residue);
    }
  }
}
