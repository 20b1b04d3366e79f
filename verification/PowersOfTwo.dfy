/** Powers of two, as the program recognises them: `n & (n - 1) == 0`. */
module PowersOfTwo {

  /** The bitwise `&` of the program. */
  function BitAnd(a: nat, b: nat): nat {
    if a == 0 || b == 0 then 0 else 2 * BitAnd(a / 2, b / 2) + (if a % 2 == 1 && b % 2 == 1 then 1 else 0)
  }

  predicate PowerOfTwo(n: nat) {
    n == 1 || (n > 0 && n % 2 == 0 && PowerOfTwo(n / 2))
  }

  lemma {:induction false} BitAndSelf(n: nat)
    ensures BitAnd(n, n) == n
  {
    if n > 0 {
      BitAndSelf(n / 2);
    }
  }

  /** The bit trick recognises exactly the powers of two. */
  lemma {:induction false} BitTrick(n: nat)
    requires n > 0
    ensures BitAnd(n, n - 1) == 0 <==> PowerOfTwo(n)
  {
    if n > 1 {
      if n % 2 == 0 {
        assert (n - 1) / 2 == n / 2 - 1;
        BitTrick(n / 2);
      } else {
        assert (n - 1) / 2 == n / 2;
        BitAndSelf(n / 2);
      }
    }
  }

  lemma ProductOrder(a: int, b: int, c: int)
    requires a <= b && c >= 0
    ensures a * c <= b * c
  {
    assert (b - a) * c >= 0;
    assert b * c - a * c == (b - a) * c;
  }

  /** A smaller power of two divides a larger one. */
  lemma {:induction false} PowersDivide(c: nat, d: nat) returns (k: nat)
    requires PowerOfTwo(c) && PowerOfTwo(d) && c <= d
    ensures d == k * c
  {
    if c == 1 {
      k := d;
    } else {
      k := PowersDivide(c / 2, d / 2);
      assert d == 2 * (d / 2) && c == 2 * (c / 2);
      assert d == 2 * (k * (c / 2)) == k * (2 * (c / 2));
    }
  }

  /** The quotient is the only number that fits. */
  lemma QuotientIs(x: int, q: int, c: int)
    requires c > 0 && q * c <= x < q * c + c
    ensures x / c == q
  {
    var p := x / c;
    assert x == p * c + x % c;
    Successor(p, c);
    Successor(q, c);
    if p < q {
      ProductOrder(p + 1, q, c);
    } else if q < p {
      ProductOrder(q + 1, p, c);
    }
  }

  lemma Successor(a: int, c: int)
    ensures (a + 1) * c == a * c + c
  {
  }

  lemma Regroup(a: int, b: int, c: int)
    ensures a * (b * c) == (a * b) * c
  {
  }

  function TwoTo(k: nat): (r: nat)
    ensures r > 0
  {
    if k == 0 then 1 else 2 * TwoTo(k - 1)
  }

  lemma {:induction false} TwoToIsPower(k: nat)
    ensures PowerOfTwo(TwoTo(k))
  {
    if k > 0 {
      hide PowerOfTwo;
      TwoToIsPower(k - 1);
      DoubleIsPower(TwoTo(k - 1));
    } else {
      assert PowerOfTwo(1);
    }
  }

  lemma {:induction false} DoubleIsPower(n: nat)
    requires PowerOfTwo(n)
    ensures PowerOfTwo(2 * n)
  {
    var m := 2 * n;
    assert m / 2 == n && m % 2 == 0;
  }

  lemma {:induction false} PowerIsTwoTo(n: nat) returns (k: nat)
    requires PowerOfTwo(n)
    ensures n == TwoTo(k)
  {
    if n == 1 {
      k := 0;
    } else {
      k := PowerIsTwoTo(n / 2);
      k := k + 1;
    }
  }

  lemma {:induction false} TwoToGrows(j: nat, k: nat)
    requires j < k
    ensures TwoTo(j) < TwoTo(k)
  {
    if j < k - 1 {
      TwoToGrows(j, k - 1);
    }
  }

  lemma TwoToTwenty()
    ensures PowerOfTwo(1048576)
  {
    TwoToIsPower(20);
    assert TwoTo(5) == 32;
    assert TwoTo(10) == 1024;
    assert TwoTo(15) == 32768;
    assert TwoTo(20) == 1048576;
  }
}
