// Bitwise masks on natural numbers.
module Bits {
  function And(a: nat, b: nat): nat {
    if a == 0 || b == 0 then 0
    else 2 * And(a / 2, b / 2) + if a % 2 == 1 && b % 2 == 1 then 1 else 0
  }

  /** The bits of `a` that are not in `b`: C's `a & ~b`. */
  function AndNot(a: nat, b: nat): nat {
    if a == 0 then 0
    else 2 * AndNot(a / 2, b / 2) + if a % 2 == 1 && b % 2 == 0 then 1 else 0
  }

  function Pow2(k: nat): (p: nat)
    ensures p > 0
  {
    if k == 0 then 1 else 2 * Pow2(k - 1)
  }

  ghost predicate IsPow2(n: nat) { exists k: nat :: n == Pow2(k) }

  lemma ModDouble(a: nat, n: nat)
    requires n > 0
    ensures a % (2 * n) == 2 * ((a / 2) % n) + a % 2
  {
    var q, r := (a / 2) / n, (a / 2) % n;
    var s := 2 * r + a % 2;
    assert a == (2 * n) * q + s by {
      assert a / 2 == n * q + r;
      assert 2 * (n * q) == (2 * n) * q;
    }
    RemainderUnique(a, 2 * n, q, s);
  }

  lemma RemainderUnique(a: nat, n: nat, q: nat, r: nat)
    requires n > 0 && a == n * q + r && r < n
    ensures a % n == r
  {
    var p, s := a / n, a % n;
    assert n * p + s == a;
    if p < q {
      Apart(n, p, q);
    } else if q < p {
      Apart(n, q, p);
    }
  }

  lemma Apart(n: nat, p: nat, q: nat)
    requires p < q
    ensures n * p + n <= n * q
  {
    assert n * q == n * p + n * (q - p);
    Grows(n, q - p);
  }

  lemma Grows(n: nat, d: nat)
    requires d >= 1
    ensures n * d >= n
  {
  }

  /** Masking with one less than a power of two is the remainder. */
  lemma {:induction false} AndIsMod(a: nat, k: nat)
    ensures And(a, Pow2(k) - 1) == a % Pow2(k)
    decreases k
  {
    if k == 0 {
      assert And(a, 0) == 0 == a % 1;
    } else {
      var n := Pow2(k - 1);
      assert Pow2(k) == 2 * n;
      AndStep(a, n);
      AndIsMod(a / 2, k - 1);
      ModDouble(a, n);
      hide And;
    }
  }

  lemma AndStep(a: nat, n: nat)
    requires n > 0
    ensures And(a, 2 * n - 1) == 2 * And(a / 2, n - 1) + a % 2
  {
    HalfMask(n);
  }

  lemma HalfMask(n: nat)
    requires n > 0
    ensures (2 * n - 1) / 2 == n - 1 && (2 * n - 1) % 2 == 1
  {
  }

  lemma {:induction false} AndPlusAndNot(a: nat, b: nat)
    ensures And(a, b) + AndNot(a, b) == a
  {
    if a > 0 {
      if b == 0 {
        AndNotZero(a);
      } else {
        AndPlusAndNot(a / 2, b / 2);
      }
    }
  }

  lemma {:induction false} AndNotZero(a: nat)
    ensures AndNot(a, 0) == a
  {
    if a > 0 {
      AndNotZero(a / 2);
    }
  }

  /** Clearing the low bits rounds down to a multiple of the power of two. */
  lemma AndNotRoundsDown(a: nat, k: nat)
    ensures AndNot(a, Pow2(k) - 1) == a - a % Pow2(k)
  {
    AndPlusAndNot(a, Pow2(k) - 1);
    AndIsMod(a, k);
  }
}
