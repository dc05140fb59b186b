/** Machine words as naturals: powers of two, shifts, and the bitwise `or` of Go. */
module Words {
  type u8 = x: int | 0 <= x < 0x100
  type u16 = x: int | 0 <= x < 0x1_0000

  const TWO_16: nat := 0x1_0000
  const TWO_64: nat := 0x1_0000_0000_0000_0000

  function Pow2(k: nat): (r: nat)
    ensures r >= 1
  {
    if k == 0 then 1 else 2 * Pow2(k - 1)
  }

  /** x shifted left by k, without a width. */
  function Up(x: nat, k: nat): nat {
    if k == 0 then x else 2 * Up(x, k - 1)
  }

  /** Conversion to uint16: the remainder modulo 2^16. */
  function Wrap16(x: nat): u16 {
    if x < TWO_16 then x else Wrap16(x - TWO_16)
  }

  /** How often x wraps around. */
  lemma {:induction false} Wraps(x: nat) returns (q: nat)
    ensures x == Wrap16(x) + 0x1_0000 * q
  {
    if x < TWO_16 {
      q := 0;
    } else {
      q := Wraps(x - TWO_16);
      q := q + 1;
    }
  }

  lemma {:induction false} Wrap16Periodic(x: nat, q: nat)
    ensures Wrap16(x + 0x1_0000 * q) == Wrap16(x)
  {
    if q > 0 {
      Wrap16Periodic(x, q - 1);
    }
  }

  /** The left and right shift of a 64-bit word. */
  function Shl(x: nat, k: nat): nat {
    Up(x, k) % 0x1_0000_0000_0000_0000
  }

  function Shr(x: nat, k: nat): nat {
    if k == 0 then x else Shr(x / 2, k - 1)
  }

  /** Bitwise or of two unsigned words of any width. */
  function BitOr(a: nat, b: nat): nat {
    if a == 0 && b == 0 then 0
    else 2 * BitOr(a / 2, b / 2) + (if a % 2 == 1 || b % 2 == 1 then 1 else 0)
  }

  lemma {:induction false} Pow2Monotone(a: nat, b: nat)
    requires a <= b
    ensures Pow2(a) <= Pow2(b)
  {
    if a < b {
      Pow2Monotone(a, b - 1);
    }
  }

  lemma {:induction false} Pow2Of16(k: nat)
    requires k == 16
    ensures Pow2(k) == TWO_16
  {
    UpOne(k);
    Up16(1, k);
  }

  lemma {:induction false} Pow2Below16(k: nat)
    ensures k < 16 ==> Pow2(k) <= 0x8000
    ensures k <= 16 ==> Pow2(k) <= TWO_16
  {
    if k <= 16 {
      Pow2Monotone(k, k + (16 - k));
      Pow2Of16(k + (16 - k));
      if k < 16 {
        Pow2Monotone(k, k + (15 - k));
      }
    }
  }

  lemma {:induction false} Pow2Values()
    ensures Pow2(3) == 8 && Pow2(4) == 16 && Pow2(5) == 32 && Pow2(8) == 0x100 && Pow2(9) == 0x200
    ensures Pow2(12) == 0x1000 && Pow2(13) == 0x2000
    ensures Pow2(15) == 0x8000 && Pow2(16) == TWO_16
  {
  }

  lemma {:induction false} UpSum(x: nat, y: nat, k: nat)
    ensures Up(x + y, k) == Up(x, k) + Up(y, k)
  {
    if k > 0 {
      UpSum(x, y, k - 1);
    }
  }

  lemma {:induction false} UpTwice(x: nat, j: nat, k: nat)
    ensures Up(Up(x, j), k) == Up(x, j + k)
  {
    if k > 0 {
      UpTwice(x, j, k - 1);
    }
  }

  lemma {:induction false} UpBelow(x: nat, j: nat, k: nat)
    requires x < Pow2(j)
    ensures Up(x, k) + Pow2(k) <= Pow2(j + k)
  {
    if k > 0 {
      UpBelow(x, j, k - 1);
    }
  }

  lemma {:induction false} UpMonotone(x: nat, y: nat, k: nat)
    requires x <= y
    ensures Up(x, k) <= Up(y, k)
    ensures x < y ==> Up(x, k) + Pow2(k) <= Up(y, k)
  {
    if k > 0 {
      UpMonotone(x, y, k - 1);
    }
  }

  lemma {:induction false} UpOne(k: nat)
    ensures Up(1, k) == Pow2(k)
  {
    if k > 0 {
      UpOne(k - 1);
    }
  }

  lemma {:induction false} UpZero(k: nat)
    ensures Up(0, k) == 0
  {
    if k > 0 {
      UpZero(k - 1);
    }
  }

  /** The word size comes in as a parameter, so that no proof unrolls 64 doublings. */
  lemma {:induction false} Pow2Of64(k: nat)
    requires k == 64
    ensures Pow2(k) == TWO_64
  {
    UpOne(k);
    Up64(1, k);
  }

  /** Shifting left by a whole word leaves nothing. */
  lemma {:induction false} UpWord(x: nat, k: nat, low: nat)
    requires k == 64 && low < TWO_64
    ensures (Up(x, k) + low) % 0x1_0000_0000_0000_0000 == low
  {
    Up64(x, k);
  }

  lemma {:induction false} Up64(x: nat, k: nat)
    requires k == 64
    ensures Up(x, k) == x * 0x1_0000_0000_0000_0000
  {
    UpTwice(x, 16, 16);
    UpTwice(x, 32, 16);
    UpTwice(x, 48, 16);
    Up16(x, k - 48);
    Up16(Up(x, 16), k - 48);
    Up16(Up(x, 32), k - 48);
    Up16(Up(x, 48), k - 48);
  }

  lemma {:induction false} Up16(x: nat, k: nat)
    requires k == 16
    ensures Up(x, k) == x * 0x1_0000
  {
    Up4(x);
    Up4(Up(x, 4));
    Up4(Up(x, 8));
    Up4(Up(x, 12));
    UpTwice(x, 4, 4);
    UpTwice(x, 8, 4);
    UpTwice(x, 12, 4);
  }

  lemma {:induction false} Up4(x: nat)
    ensures Up(x, 4) == 16 * x
  {
    assert Up(x, 1) == 2 * x;
    assert Up(x, 2) == 4 * x;
    assert Up(x, 3) == 8 * x;
  }

  lemma {:induction false} ShrDrops(q: nat, k: nat, r: nat)
    requires r < Pow2(k)
    ensures Shr(Up(q, k) + r, k) == q
  {
    if k > 0 {
      ShrDrops(q, k - 1, r / 2);
      assert (Up(q, k) + r) / 2 == Up(q, k - 1) + r / 2;
    }
  }

  /** Words without common bits: `or` is addition. */
  lemma {:induction false} BitOrDisjoint(q: nat, k: nat, b: nat)
    requires b < Pow2(k)
    ensures BitOr(Up(q, k), b) == Up(q, k) + b
  {
    if k == 0 {
      BitOrZero(q);
    } else {
      BitOrDisjoint(q, k - 1, b / 2);
    }
  }

  lemma {:induction false} BitOrZero(a: nat)
    ensures BitOr(a, 0) == a
  {
    if a > 0 {
      BitOrZero(a / 2);
    }
  }
}
