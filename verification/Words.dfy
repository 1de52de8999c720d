/** What the bits of a 64-bit integer mean, in numbers alone. */
module Words {
  import opened Syntax

  /** `n` doubled `k` times. */
  function Doubled(n: int, k: nat): int {
    if k == 0 then n else 2 * Doubled(n, k - 1)
  }

  /** `n` halved `k` times, rounding down. */
  function Halved(n: int, k: nat): int {
    if k == 0 then n else Halved(n, k - 1) / 2
  }

  /** Bit `i` of the two's complement of `n`. */
  predicate Bit(n: int, i: nat) {
    Halved(n, i) % 2 == 1
  }

  /** The one 64-bit integer that differs from `n` by a multiple of two to the 64th. */
  function Wrapped(n: int): (i: Int64)
  {
    n - 0x1_0000_0000_0000_0000 * ((n + 0x8000_0000_0000_0000) / 0x1_0000_0000_0000_0000)
  }

  /** One bit of `&`, `|` and `^`. */
  predicate Joint(op: Op, x: bool, y: bool) {
    if op == OpAnd then x && y else if op == OpOr then x || y else x != y
  }

  /** The lowest `n` bits of `a op b` as a number. */
  function BitsBelow(op: Op, a: int, b: int, n: nat): (r: int)
    ensures 0 <= r < Doubled(1, n)
  {
    if n == 0 then 0
    else BitsBelow(op, a, b, n - 1) + if Joint(op, Bit(a, n - 1), Bit(b, n - 1)) then Doubled(1, n - 1) else 0
  }

  /** `a op b` of 64-bit integers: 63 bits and a sign. */
  function Bitwise(op: Op, a: Int64, b: Int64): (r: Int64) {
    TopBit();
    BitsBelow(op, a, b, 63) - if Joint(op, a < 0, b < 0) then 0x8000_0000_0000_0000 else 0
  }

  lemma DoubledTwice(n: int, j: nat, k: nat)
    ensures Doubled(n, j + k) == Doubled(Doubled(n, j), k)
  {
  }

  lemma DoubledByte(n: int)
    ensures Doubled(n, 8) == 256 * n
  {
    DoubledTwo(n);
    DoubledTwo(4 * n);
    DoubledTwo(16 * n);
    DoubledTwo(64 * n);
    DoubledTwice(n, 2, 2);
    DoubledTwice(n, 4, 4);
    DoubledTwice(16 * n, 2, 2);
  }

  lemma DoubledTwo(n: int)
    ensures Doubled(n, 2) == 4 * n
  {
    assert Doubled(n, 1) == 2 * Doubled(n, 0);
  }

  lemma TopBit()
    ensures Doubled(1, 63) == 0x8000_0000_0000_0000
  {
    DoubledByte(1);
    DoubledTwice(1, 8, 8);
    DoubledByte(256);
    DoubledTwice(1, 16, 16);
    DoubledTwice(0x1_0000, 8, 8);
    DoubledByte(0x1_0000);
    DoubledByte(0x100_0000);
    DoubledTwice(1, 32, 16);
    DoubledTwice(0x1_0000_0000, 8, 8);
    DoubledByte(0x1_0000_0000);
    DoubledByte(0x100_0000_0000);
    DoubledTwice(1, 48, 8);
    DoubledByte(0x1_0000_0000_0000);
    DoubledTwice(1, 56, 8);
    DoubledByte(0x100_0000_0000_0000);
    assert Doubled(1, 64) == 2 * Doubled(1, 63);
  }

  // ------------------------------------------------------------------- the bits

  /** Halving can start at either end. */
  lemma {:induction false} HalvedShift(n: int, k: nat)
    ensures Halved(n, k + 1) == Halved(n / 2, k)
    decreases k
  {
    if k > 0 { HalvedShift(n, k - 1); }
  }

  lemma BitOfDouble(n: int, low: bool, i: nat)
    ensures var m := 2 * n + if low then 1 else 0;
      && (Bit(m, 0) <==> low)
      && (Bit(m, i + 1) <==> Bit(n, i))
  {
    var m := 2 * n + if low then 1 else 0;
    assert m / 2 == n;
    HalvedShift(m, i);
  }

  lemma BitZero(n: int)
    ensures Bit(n, 0) <==> n % 2 == 1
  {
  }

  lemma BitShift(n: int, i: nat)
    ensures Bit(n, i + 1) <==> Bit(n / 2, i)
  {
    HalvedShift(n, i);
  }

  lemma {:induction false} LowestBit(op: Op, a: int, b: int, n: nat)
    ensures BitsBelow(op, a, b, n + 1) ==
            2 * BitsBelow(op, a / 2, b / 2, n) + if Joint(op, a % 2 == 1, b % 2 == 1) then 1 else 0
    decreases n
  {
    hide Joint, Bit;
    if n > 0 {
      BitShift(a, n - 1);
      BitShift(b, n - 1);
      LowestBit(op, a, b, n - 1);
      assert Doubled(1, n) == 2 * Doubled(1, n - 1);
    } else {
      BitZero(a);
      BitZero(b);
      assert Doubled(1, 0) == 1;
    }
  }

  /** A 64-bit integer is known by its bits: no two have the same ones. */
  lemma {:induction false} BitsDetermine(a: int, b: int, n: nat)
    requires forall i: nat :: i < n ==> (Bit(a, i) <==> Bit(b, i))
    requires Halved(a, n) == Halved(b, n)
    ensures a == b
    decreases n
  {
    if n > 0 {
      assert Bit(a, n - 1) <==> Bit(b, n - 1);
      BitsDetermine(a, b, n - 1);
    }
  }
}
