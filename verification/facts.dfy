/** Facts about sequences and products that several modules need. */
module Facts {
  lemma Regroup<T>(a: seq<T>, b: seq<T>, c: seq<T>)
    ensures a + (b + c) == a + b + c
  {}

  lemma InPrefix<T>(s: seq<T>, i: nat, k: nat)
    requires k <= |s|
    ensures i < k ==> s[i] in s[..k]
  {
    assert i < k ==> s[..k][i] == s[i];
  }

  lemma MulMonotone(m: nat, a: int, b: int)
    requires a <= b
    ensures m * a <= m * b && m * (a + 1) == m * a + m
  {}

  lemma Quotient(n: int, d: int, q: int, r: int)
    requires n == d * q + r && 0 <= r < d
    ensures n / d == q && n % d == r
  {
    var x := n / d - q;
    assert d * x == d * (n / d) - d * q == r - n % d;
    assert x >= 1 ==> d * x >= d;
    assert x <= -1 ==> d * x <= -d;
  }

  /** Dividing step by step. */
  lemma DivideTwice(n: nat, a: nat, s: nat)
    requires a > 0 && s > 0
    ensures n / a / s == n / (a * s)
  {
    var m := n / a;
    var q, r := m / s, m % s;
    assert m == s * q + r;
    assert (a * s) * q == a * (s * q);
    MulMonotone(a, r, s - 1);
    Quotient(n, a * s, q, a * r + n % a);
  }
}
