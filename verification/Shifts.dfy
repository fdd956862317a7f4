/** Shifting numbers by bits, and the low bits of a number. */
module Shifts {
  import opened Words

  /** v shifted left by k bits, v shifted right by k bits, and the low k bits of v. */
  function Left(v: nat, k: nat): nat {
    if k == 0 then v else 2 * Left(v, k - 1)
  }

  function Right(v: nat, k: nat): nat {
    if k == 0 then v else Right(v / 2, k - 1)
  }

  function Low(v: nat, k: nat): (r: nat)
    ensures r < Pow2(k)
  {
    if k == 0 then 0 else 2 * Low(v / 2, k - 1) + v % 2
  }

  /** Bitwise or. */
  function Or(x: nat, y: nat): nat
    decreases x + y
  {
    if x == 0 && y == 0 then 0
    else 2 * Or(x / 2, y / 2) + (if x % 2 == 0 && y % 2 == 0 then 0 else 1)
  }

  lemma {:induction false} Regain(v: nat, k: nat)
    ensures v == Left(Right(v, k), k) + Low(v, k)
  {
    if k > 0 {
      Regain(v / 2, k - 1);
    }
  }

  lemma {:induction false} Split(q: nat, r: nat, k: nat)
    requires r < Pow2(k)
    ensures Right(Left(q, k) + r, k) == q && Low(Left(q, k) + r, k) == r
  {
    if k > 0 {
      Split(q, r / 2, k - 1);
      Halve(Left(q, k - 1), r);
    }
  }

  lemma {:induction false} LeftSum(a: nat, b: nat, k: nat)
    ensures Left(a + b, k) == Left(a, k) + Left(b, k)
  {
    if k > 0 {
      LeftSum(a, b, k - 1);
    }
  }

  lemma {:induction false} LeftLeft(v: nat, j: nat, k: nat)
    ensures Left(Left(v, j), k) == Left(v, j + k)
  {
    if k > 0 {
      LeftLeft(v, j, k - 1);
    }
  }

  lemma {:induction false} RightBound(v: nat, j: nat, k: nat)
    requires v < Pow2(j + k)
    ensures Right(v, k) < Pow2(j)
  {
    if k > 0 {
      RightBound(v / 2, j, k - 1);
    }
  }

  lemma {:induction false} LeftBound(v: nat, r: nat, j: nat, k: nat)
    requires v < Pow2(j) && r < Pow2(k)
    ensures Left(v, k) + r < Pow2(j + k)
  {
    if k > 0 {
      LeftBound(v, r / 2, j, k - 1);
    }
  }

  /** Or with something below the shifted number's bits is addition. */
  lemma {:induction false} OrLow(h: nat, r: nat, k: nat)
    requires r < Pow2(k)
    ensures Or(Left(h, k), r) == Left(h, k) + r
  {
    if k == 0 {
      OrZero(h);
    } else {
      OrLow(h, r / 2, k - 1);
      Halve(Left(h, k - 1), 0);
    }
  }

  lemma {:induction false} OrZero(h: nat)
    ensures Or(h, 0) == h
  {
    if h > 0 {
      OrZero(h / 2);
    }
  }

  /** Bits shifted in at the low end. */
  lemma {:induction false} LowOfLeft(x: nat, r: nat, j: nat, k: nat)
    requires r < Pow2(k)
    ensures Low(Left(x, k) + r, j + k) == Left(Low(x, j), k) + r
  {
    if k > 0 {
      LowOfLeft(x, r / 2, j, k - 1);
      Halve(Left(x, k - 1), r);
    }
  }

  lemma {:induction false} LowOfLow(x: nat, j: nat, k: nat)
    requires j <= k
    ensures Low(Low(x, k), j) == Low(x, j)
  {
    if j > 0 {
      LowOfLow(x / 2, j - 1, k - 1);
      Halve(Low(x / 2, k - 1), x);
    }
  }

  /** The k bits above the low j. */
  lemma {:induction false} LowOfRight(x: nat, j: nat, k: nat)
    ensures Low(Right(x, j), k) == Right(Low(x, j + k), j)
  {
    if j > 0 {
      LowOfRight(x / 2, j - 1, k);
      Halve(Low(x / 2, j + k - 1), x);
    }
  }
}
