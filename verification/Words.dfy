/** Unsigned machine words, as naturals with their bitwise operations. */
module Words {
  import opened Powers

  /** Bit `i` of a word. */
  predicate Bit(m: nat, i: nat)
    decreases i
  {
    if i == 0 then m % 2 == 1 else Bit(m / 2, i - 1)
  }

  /** `x & y`. */
  function And(x: nat, y: nat): (r: nat)
    decreases x
  {
    if x == 0 then 0 else 2 * And(x / 2, y / 2) + (if x % 2 == 1 && y % 2 == 1 then 1 else 0)
  }

  /** `x | y`. */
  function Or(x: nat, y: nat): (r: nat)
    decreases x + y
  {
    if x == 0 then y else 2 * Or(x / 2, y / 2) + (if x % 2 == 1 || y % 2 == 1 then 1 else 0)
  }

  /** `x & !y`. */
  function AndNot(x: nat, y: nat): (r: nat)
    decreases x
  {
    if x == 0 then 0 else 2 * AndNot(x / 2, y / 2) + (if x % 2 == 1 && y % 2 == 0 then 1 else 0)
  }

  lemma {:induction false} ZeroBit(j: nat)
    ensures !Bit(0, j)
  {
    if j > 0 {
      ZeroBit(j - 1);
    }
  }

  /** Words are sets of bit positions: `&` is intersection. */
  lemma {:induction false} AndBit(x: nat, y: nat, j: nat)
    ensures Bit(And(x, y), j) <==> Bit(x, j) && Bit(y, j)
    decreases j
  {
    if x == 0 {
      ZeroBit(j);
    } else if j > 0 {
      AndBit(x / 2, y / 2, j - 1);
    }
  }

  /** `|` is union. */
  lemma {:induction false} OrBit(x: nat, y: nat, j: nat)
    ensures Bit(Or(x, y), j) <==> Bit(x, j) || Bit(y, j)
    decreases j
  {
    if x == 0 {
      ZeroBit(j);
    } else if j > 0 {
      OrBit(x / 2, y / 2, j - 1);
    }
  }

  /** `& !` is difference. */
  lemma {:induction false} AndNotBit(x: nat, y: nat, j: nat)
    ensures Bit(AndNot(x, y), j) <==> Bit(x, j) && !Bit(y, j)
    decreases j
  {
    if x == 0 {
      ZeroBit(j);
    } else if j > 0 {
      AndNotBit(x / 2, y / 2, j - 1);
    }
  }

  /** `1 << i` is the singleton `i`. */
  lemma {:induction false} PowBit(i: nat, j: nat)
    ensures Bit(Pow2(i), j) <==> i == j
    decreases i
  {
    if i > 0 {
      assert Pow2(i) / 2 == Pow2(i - 1) && Pow2(i) % 2 == 0;
      if j > 0 {
        PowBit(i - 1, j - 1);
      }
    } else if j > 0 {
      ZeroBit(j - 1);
    }
  }

  /** None of the operations leaves its word. */
  lemma {:induction false} StaysInWord(x: nat, y: nat, w: nat)
    requires x < Pow2(w) && y < Pow2(w)
    ensures And(x, y) < Pow2(w) && Or(x, y) < Pow2(w) && AndNot(x, y) < Pow2(w)
    decreases w
  {
    if w > 0 {
      StaysInWord(x / 2, y / 2, w - 1);
    }
  }

  lemma AndOdd(x: nat, m: nat)
    requires m % 2 == 1
    ensures And(x, m) == 2 * And(x / 2, m / 2) + x % 2
  {
  }

  lemma MaskStep(x: nat, n: nat, h: nat)
    requires n > 0 && And(x / 2, n - 1) == h
    ensures And(x, 2 * n - 1) == 2 * h + x % 2
  {
    assert (2 * n - 1) / 2 == n - 1 && (2 * n - 1) % 2 == 1;
    AndOdd(x, 2 * n - 1);
  }

  /** Masking with `2^k - 1` is reduction modulo `2^k`. */
  lemma {:induction false} MaskIsModulo(x: nat, k: nat)
    ensures And(x, Pow2(k) - 1) == x % Pow2(k)
    decreases k
  {
    if k == 0 {
      AndZero(x);
    } else {
      MaskIsModulo(x / 2, k - 1);
      MaskStep(x, Pow2(k - 1), x / 2 % Pow2(k - 1));
      HalfModulo(x, Pow2(k - 1));
    }
  }

  /** `x >> n`. */
  function Shr(x: nat, n: nat): (r: nat)
    decreases n
  {
    if n == 0 then x else Shr(x / 2, n - 1)
  }

  lemma {:induction false} QuotientOfHalf(x: nat, n: nat)
    requires n > 0
    ensures x / 2 / n == x / (2 * n)
  {
    var q, r := x / 2 / n, x / 2 % n;
    assert x / 2 == n * q + r;
    assert x == (2 * n) * q + (2 * r + x % 2) by {
      assert 2 * (n * q) == (2 * n) * q;
    }
    UniqueQuotient(x, 2 * n, q, 2 * r + x % 2);
  }

  lemma UniqueQuotient(x: nat, n: nat, q: nat, r: nat)
    requires r < n && x == n * q + r
    ensures x / n == q
  {
    var p := x / n;
    assert x == n * p + x % n;
    if p < q {
      Stretch(n, p, q);
    } else if q < p {
      Stretch(n, q, p);
    }
  }

  /** Shifting right by `n` is division by `2^n`. */
  lemma {:induction false} ShiftIsDivision(x: nat, n: nat)
    ensures Shr(x, n) == x / Pow2(n)
    decreases n
  {
    if n > 0 {
      ShiftIsDivision(x / 2, n - 1);
      QuotientOfHalf(x, Pow2(n - 1));
    }
  }

  /** A word has a bit exactly if masking with that bit leaves something. */
  lemma {:induction false} MaskedBit(x: nat, i: nat)
    ensures And(x, Pow2(i)) != 0 <==> Bit(x, i)
    decreases i
  {
    if i == 0 {
      AndZero(x / 2);
    } else {
      assert Pow2(i) / 2 == Pow2(i - 1) && Pow2(i) % 2 == 0;
      if x > 0 {
        MaskedBit(x / 2, i - 1);
      } else {
        ZeroBit(i);
      }
    }
  }

  lemma {:induction false} AndZero(x: nat)
    ensures And(x, 0) == 0
  {
    if x > 0 {
      AndZero(x / 2);
    }
  }

  lemma HalfModulo(x: nat, n: nat)
    requires n > 0
    ensures x % (2 * n) == 2 * (x / 2 % n) + x % 2
  {
    var q, r := x / 2 / n, x / 2 % n;
    assert x == 2 * (n * q + r) + x % 2;
    assert x == (2 * n) * q + (2 * r + x % 2) by {
      assert 2 * (n * q) == (2 * n) * q;
    }
    UniqueRemainder(x, 2 * n, q, 2 * r + x % 2);
  }

  lemma UniqueRemainder(x: nat, n: nat, q: nat, r: nat)
    requires r < n && x == n * q + r
    ensures x % n == r
  {
    var p := x / n;
    assert x == n * p + x % n;
    if p < q {
      Stretch(n, p, q);
    } else if q < p {
      Stretch(n, q, p);
    }
  }

  lemma {:induction false} Stretch(n: nat, a: nat, b: nat)
    requires a < b
    ensures n * a + n <= n * b
    decreases b
  {
    if a + 1 < b {
      Stretch(n, a, b - 1);
    }
  }

  // -------------------------------------------------------------------------------------
  // 64-bit words
  // -------------------------------------------------------------------------------------

  type u64 = x: nat | x < 0x1_0000_0000_0000_0000

  lemma In64(x: u64, y: u64)
    ensures And(x, y) < 0x1_0000_0000_0000_0000
    ensures Or(x, y) < 0x1_0000_0000_0000_0000
    ensures AndNot(x, y) < 0x1_0000_0000_0000_0000
  {
    Pow2Constants();
    StaysInWord(x, y, 64);
  }

  function Or64(x: u64, y: u64): (r: u64) {
    In64(x, y);
    Or(x, y)
  }

  function AndNot64(x: u64, y: u64): (r: u64) {
    In64(x, y);
    AndNot(x, y)
  }

  lemma OneFits(i: nat)
    requires i < 64
    ensures Pow2(i) < 0x1_0000_0000_0000_0000
  {
    Pow2Constants();
    Pow2Monotone(i, 63);
  }

  /** `1 << i`. */
  function One64(i: nat): (r: u64)
    requires i < 64
  {
    OneFits(i);
    Pow2(i)
  }

  lemma SetBit(m: u64, i: nat, j: nat)
    requires i < 64
    ensures Bit(Or64(m, One64(i)), j) <==> Bit(m, j) || i == j
  {
    OrBit(m, One64(i), j);
    PowBit(i, j);
  }

  lemma ClearBit(m: u64, i: nat, j: nat)
    requires i < 64
    ensures Bit(AndNot64(m, One64(i)), j) <==> Bit(m, j) && i != j
  {
    AndNotBit(m, One64(i), j);
    PowBit(i, j);
  }
}
