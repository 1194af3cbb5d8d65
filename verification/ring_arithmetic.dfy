/** Index and width arithmetic of the bounded ring: which cell a ticket uses, how the
    capacity is rounded up, and when 64-bit signed differences equal the true ones. */
module RingArithmetic {
  import opened Facts

  /** The cell of ticket `p` in a ring of `cap` cells, by walking back one lap at a time. */
  function Slot(p: nat, cap: nat): (c: nat)
    requires cap > 0
    ensures c < cap
  {
    if p < cap then p else Slot(p - cap, cap)
  }

  lemma {:induction false} SlotIsModulo(p: nat, cap: nat)
    requires cap > 0
    ensures Slot(p, cap) == p % cap
    decreases p
  {
    if p >= cap {
      SlotIsModulo(p - cap, cap);
      var d := (p - cap) / cap;
      assert p == cap * (d + 1) + Slot(p, cap) by {
        MulMonotone(cap, d, d);
      }
      RemainderUnique(p, cap, d + 1, Slot(p, cap));
    } else {
      RemainderUnique(p, cap, 0, p);
    }
  }

  /** Tickets less than one lap apart never share a cell. */
  lemma {:induction false} SlotInjectiveOnLap(p: nat, q: nat, cap: nat)
    requires cap > 0 && p <= q < p + cap
    requires Slot(p, cap) == Slot(q, cap)
    ensures p == q
    decreases p
  {
    if p >= cap {
      SlotInjectiveOnLap(p - cap, q - cap, cap);
    }
  }

  /** Bitwise `and` of two unsigned words of any width. */
  function BitAnd(a: nat, b: nat): (r: nat)
    ensures r <= b
    decreases a
  {
    if a == 0 || b == 0 then 0
    else (if a % 2 == 1 && b % 2 == 1 then 1 else 0) + 2 * BitAnd(a / 2, b / 2)
  }

  function Pow2(k: nat): (r: nat)
    ensures r > 0
  {
    if k == 0 then 1 else 2 * Pow2(k - 1)
  }

  /** `pos & mask` is the remainder by the capacity whenever the capacity is a power of two. */
  lemma {:induction false} MaskIsModulo(p: nat, k: nat)
    ensures BitAnd(p, Pow2(k) - 1) == p % Pow2(k)
    decreases k
  {
    if k == 0 {
      assert BitAnd(p, 0) == 0;
    } else if p == 0 {
      RemainderUnique(0, Pow2(k), 0, 0);
    } else {
      MaskIsModulo(p / 2, k - 1);
      var half := Pow2(k - 1);
      HalveRemainder(p, half);
      assert (2 * half - 1) % 2 == 1 && (2 * half - 1) / 2 == half - 1;
    }
  }

  lemma HalveRemainder(p: nat, half: nat)
    requires half > 0
    ensures p % (2 * half) == 2 * (p / 2 % half) + p % 2
  {
    var q, r := p / 2 / half, p / 2 % half;
    assert p / 2 == half * q + r;
    DoubleProduct(half, q);
    RemainderUnique(p, 2 * half, q, 2 * r + p % 2);
  }

  lemma DoubleProduct(a: nat, b: nat)
    ensures (2 * a) * b == 2 * (a * b)
  {
  }

  lemma RemainderUnique(p: nat, m: nat, q: nat, r: nat)
    requires m > 0 && r < m && p == m * q + r
    ensures p % m == r
  {
    var d, e := p / m, p % m;
    assert p == m * d + e;
    if d < q {
      assert m * d + m <= m * q by { MulMonotone(m, d + 1, q); }
    } else if q < d {
      assert m * q + m <= m * d by { MulMonotone(m, q + 1, d); }
    }
  }

  const WORD: nat := 0x1_0000_0000_0000_0000
  const HALF: nat := 0x8000_0000_0000_0000

  lemma WordIsPow2()
    ensures HALF == Pow2(63)
    ensures WORD == 2 * HALF
  {
    assert Pow2(16) == 0x1_0000;
    Pow2Adds(16, 16);
    Pow2Adds(32, 16);
    Pow2Adds(48, 15);
    assert Pow2(15) == 0x8000;
  }

  lemma {:induction false} Pow2Adds(a: nat, b: nat)
    ensures Pow2(a + b) == Pow2(a) * Pow2(b)
    decreases b
  {
    if b > 0 {
      Pow2Adds(a, b - 1);
      assert Pow2(a + b) == 2 * Pow2(a + b - 1);
    }
  }

  lemma {:induction false} Pow2Grows(a: nat, b: nat)
    requires a <= b
    ensures Pow2(a) <= Pow2(b)
    decreases b
  {
    if a < b {
      Pow2Grows(a, b - 1);
    }
  }

  /** The capacity for a requested size: the least power of two that holds it and is at least
      two.  `p <<= 1` is a shift in a 64-bit word; the loop terminates and the shift never
      loses the top bit exactly because requests above half the word range are excluded. */
  method RoundUpPow2(n: nat) returns (p: nat, ghost k: nat)
    requires n <= HALF
    ensures p == Pow2(k) && k >= 1
    ensures 2 <= p <= HALF && n <= p
    ensures forall j: nat {:trigger Pow2(j)} :: Pow2(j) >= n && Pow2(j) >= 2 ==> p <= Pow2(j)
  {
    WordIsPow2();
    if n < 2 {
      assert Pow2(1) == 2;
      return 2, 1;
    }
    p := 1;
    k := 0;
    while p < n
      invariant p == Pow2(k)
      invariant k <= 63
      invariant k == 0 || Pow2(k - 1) < n
      decreases n - p
    {
      if k == 63 {
        assert false;
      }
      assert p * 2 < WORD;
      p := (p * 2) % WORD;
      k := k + 1;
      Pow2Grows(k, 63);
    }
    Pow2Grows(k, 63);
    forall j: nat | Pow2(j) >= n && Pow2(j) >= 2
      ensures p <= Pow2(j)
    {
      if j < k {
        Pow2Grows(j, k - 1);
      } else {
        Pow2Grows(k, j);
      }
    }
  }

  /** A 64-bit pattern read as a two's-complement signed number. */
  function AsSigned(w: nat): int
    requires w < WORD
  {
    if w < HALF then w else w - WORD
  }

  /** The difference the queue tests is the true difference exactly when the two counters lie
      on the same side of the signed boundary. */
  lemma SignedDifferenceExact(seqNo: nat, pos: nat)
    requires seqNo < WORD && pos < WORD
    ensures AsSigned(seqNo) - AsSigned(pos) == seqNo - pos
       <==> (seqNo < HALF <==> pos < HALF)
  {
  }
}
