/** The folder's wrap-around, shifts and bit operations are what the bits say. */
module FoldBits {
  import opened Syntax
  import opened Words
  import Fold

  /** Wrapping picks the one 64-bit integer that differs by a multiple of two to the 64th. */
  lemma WrapMeaning(n: int)
    ensures Fold.Wrap(n) == Wrapped(n)
  {
  }

  // ------------------------------------------------------------------- shifts

  lemma {:induction false} DoubledProduct(n: int, k: nat)
    ensures n * Fold.Pow2(k) == Doubled(n, k)
    decreases k
  {
    if k > 0 {
      DoubledProduct(n, k - 1);
      assert n * (2 * Fold.Pow2(k - 1)) == 2 * (n * Fold.Pow2(k - 1));
    }
  }

  lemma NonNegative(x: int, y: int)
    requires x >= 0 && y >= 0
    ensures x * y >= 0
  {
  }

  /** The only multiple of `n` strictly between `-n` and `n` is zero. */
  lemma SmallMultiple(k: int, n: int)
    requires n > 0 && -n < k * n < n
    ensures k == 0
  {
    assert (k - 1) * n == k * n - n && (-k - 1) * n == -(k * n) - n;
    if k >= 1 {
      NonNegative(k - 1, n);
    } else if k <= -1 {
      NonNegative(-k - 1, n);
    }
  }

  lemma DivUnique(m: int, n: int, q: int, r: int)
    requires n > 0 && m == q * n + r && 0 <= r < n
    ensures m / n == q && m % n == r
  {
    var q', r' := m / n, m % n;
    assert m == q' * n + r';
    assert (q - q') * n == q * n - q' * n;
    SmallMultiple(q - q', n);
  }

  /** Dividing by twice as much is halving the quotient. */
  lemma HalfQuotient(n: int, p: int)
    requires p > 0
    ensures n / (2 * p) == (n / p) / 2
  {
    var q, r := n / p, n % p;
    var h, s := q / 2, q % 2;
    assert n == q * p + r && 0 <= r < p;
    assert q == 2 * h + s;
    assert (2 * h + s) * p == h * (2 * p) + s * p;
    assert s * p == if s == 1 then p else 0;
    DivUnique(n, 2 * p, h, s * p + r);
  }

  lemma {:induction false} HalvedQuotient(n: int, k: nat)
    ensures n / Fold.Pow2(k) == Halved(n, k)
    decreases k
  {
    if k > 0 {
      HalvedQuotient(n, k - 1);
      HalfQuotient(n, Fold.Pow2(k - 1));
    }
  }

  // ------------------------------------------------------------- bit operations

  lemma OneBit(op: Op, x: bool, y: bool)
    requires op == OpAnd || op == OpOr || op == OpXor
    ensures Fold.OnBits(op, x, y) == Joint(op, x, y)
  {
  }

  lemma HalfSign(n: int)
    ensures n / 2 < 0 <==> n < 0
  {
  }

  lemma {:induction false} SumOfBits(op: Op, a: int, b: int, n: nat)
    requires op == OpAnd || op == OpOr || op == OpXor
    ensures Fold.BitAfterBit(op, a, b, n) ==
            BitsBelow(op, a, b, n) - if Joint(op, a < 0, b < 0) then Doubled(1, n) else 0
    decreases n
  {
    hide Joint, Fold.OnBits;
    OneBit(op, a < 0, b < 0);
    if n > 0 {
      hide BitsBelow;
      HalfSign(a);
      HalfSign(b);
      OneBit(op, a % 2 == 1, b % 2 == 1);
      SumOfBits(op, a / 2, b / 2, n - 1);
      LowestBit(op, a, b, n - 1);
    }
  }

  lemma BitwiseMeaning(op: Op, a: Int64, b: Int64)
    requires op == OpAnd || op == OpOr || op == OpXor
    ensures Fold.Bitwise(op, a, b) == Words.Bitwise(op, a, b)
  {
    hide Fold.BitAfterBit, BitsBelow, Doubled, Joint;
    SumOfBits(op, a, b, 63);
    TopBit();
  }

  /** Every bit of the result of `&`, `|` or `^` is that of the two bits in its place, and
      the sign is that of the two signs. */
  lemma {:induction false} BitByBit(op: Op, a: int, b: int, n: nat, i: nat)
    requires (op == OpAnd || op == OpOr || op == OpXor) && i < n
    ensures Bit(Fold.BitAfterBit(op, a, b, n), i) <==>
            match op
            case OpAnd => Bit(a, i) && Bit(b, i)
            case OpOr => Bit(a, i) || Bit(b, i)
            case _ => Bit(a, i) != Bit(b, i)
    decreases n
  {
    hide Bit;
    var rest := Fold.BitAfterBit(op, a / 2, b / 2, n - 1);
    assert Bit(a, 0) <==> a % 2 == 1 by { BitZero(a); }
    assert Bit(b, 0) <==> b % 2 == 1 by { BitZero(b); }
    if i == 0 {
      BitOfDouble(rest, Fold.OnBits(op, a % 2 == 1, b % 2 == 1), 0);
    } else {
      BitOfDouble(rest, Fold.OnBits(op, a % 2 == 1, b % 2 == 1), i - 1);
      BitByBit(op, a / 2, b / 2, n - 1, i - 1);
      BitShift(a, i - 1);
      BitShift(b, i - 1);
    }
  }
}
