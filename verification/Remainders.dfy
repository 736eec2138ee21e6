/** Remainders by a modulus that is not a constant. */
module Remainders {
  lemma MultipleIsLarge(k: int, n: nat)
    ensures k >= 1 ==> k * n >= n
    ensures k <= -1 ==> k * n + n <= 0
  {
    if k >= 1 {
      assert (k - 1) * n >= 0;
    } else if k <= -1 {
      assert (-k - 1) * n >= 0;
    }
  }

  lemma QuotientIsUnique(a: int, q: int, r: nat, n: nat)
    requires a == q * n + r && r < n
    ensures a / n == q && a % n == r
  {
    var q', r' := a / n, a % n;
    MultipleIsLarge(q - q', n);
    assert (q - q') * n == r' - r;
  }

  lemma RemainderIsUnique(a: int, q: int, r: nat, n: nat)
    requires a == q * n + r && r < n
    ensures a % n == r
  {
    QuotientIsUnique(a, q, r, n);
  }

  /** The remainder, also of a negative number. */
  function Mod(a: int, n: nat): (r: nat)
    requires n > 0
    ensures r < n
  {
    a % n
  }

  lemma ModSum(a: int, b: int, n: nat)
    requires n > 0
    ensures Mod(Mod(a, n) + b, n) == Mod(a + b, n)
  {
    var q, r := (a % n + b) / n, (a % n + b) % n;
    assert a + b == (a / n + q) * n + r by {
      assert (a / n + q) * n == (a / n) * n + q * n;
    }
    RemainderIsUnique(a + b, a / n + q, r, n);
  }

  lemma ModSmall(a: nat, n: nat)
    requires a < n
    ensures Mod(a, n) == a
  {
    RemainderIsUnique(a, 0, a, n);
  }

  lemma ModTurn(a: int, n: nat)
    requires n > 0
    ensures Mod(a + n, n) == Mod(a, n)
  {
    assert a + n == (a / n + 1) * n + a % n;
    RemainderIsUnique(a + n, a / n + 1, a % n, n);
  }

  /** Less than n apart, different numbers have different remainders. */
  lemma ModsDiffer(a: int, b: int, n: nat)
    requires n > 0 && a < b < a + n
    ensures Mod(a, n) != Mod(b, n)
  {
    var k, d := b / n - a / n, b % n - a % n;
    MultipleIsLarge(k, n);
    assert b - a == k * n + d;
  }
}
