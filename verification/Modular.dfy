/** Arithmetic modulo a ring size. `Modulo` is the remainder (`ModuloIsRemainder`), defined by
    subtraction so that proofs about slots stay linear. */
module Modular {

  function Modulo(v: nat, m: nat): (r: nat)
    requires m > 0
    ensures r < m
    ensures v < m ==> r == v
  {
    if v < m then v else Modulo(v - m, m)
  }

  lemma {:induction false} ModuloIsRemainder(v: nat, m: nat)
    requires m > 0
    ensures Modulo(v, m) == v % m
  {
    if v < m {
      RemainderIs(v, m, 0, v);
    } else {
      ModuloIsRemainder(v - m, m);
      var q, r := (v - m) / m, (v - m) % m;
      assert m * (q + 1) == m * q + m;
      RemainderIs(v, m, q + 1, r);
    }
  }

  lemma RemainderIs(v: nat, m: nat, q: nat, r: nat)
    requires r < m && v == m * q + r
    ensures v % m == r
  {
    var q', r' := v / m, v % m;
    assert m * q' + r' == v;
    assert m * (q - q') == r' - r;
    if q > q' {
      AtLeastOneTurn(m, q - q');
      assert false;
    } else if q' > q {
      AtLeastOneTurn(m, q' - q);
      assert false;
    }
  }

  lemma AtLeastOneTurn(m: nat, k: nat)
    requires k >= 1
    ensures m * k >= m
  {
  }

  /** The slot after `i`, and the slot before it. */
  function Next(i: nat, n: nat): (r: nat)
    requires i < n
    ensures r < n
  {
    if i + 1 == n then 0 else i + 1
  }

  function Prev(i: nat, n: nat): (r: nat)
    requires i < n
    ensures r < n
  {
    if i == 0 then n - 1 else i - 1
  }

  lemma {:induction false} ModuloNext(k: nat, n: nat)
    requires n > 0
    ensures Modulo(k + 1, n) == Next(Modulo(k, n), n)
  {
    if k < n {
      assert k + 1 == n ==> Modulo(k + 1, n) == Modulo(0, n);
    } else {
      ModuloNext(k - n, n);
    }
  }

  lemma PrevNext(i: nat, n: nat)
    requires i < n
    ensures Prev(Next(i, n), n) == i && Next(Prev(i, n), n) == i
  {
  }

  /** Two positions of the same slot are a whole number of turns apart. */
  lemma {:induction false} SameSlot(a: nat, b: nat, n: nat)
    requires n > 0 && a < b && Modulo(a, n) == Modulo(b, n)
    ensures a + n <= b
  {
    if a >= n {
      SameSlot(a - n, b - n, n);
    }
  }

  /** The C++ forms of the two steps. */
  lemma StepsAsRemainders(i: nat, n: nat)
    requires i < n
    ensures (i + 1) % n == Next(i, n)
    ensures (i + n - 1) % n == Prev(i, n)
  {
    ModuloIsRemainder(i + 1, n);
    ModuloIsRemainder(i + n - 1, n);
  }
}
