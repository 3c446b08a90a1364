/**
 Bitwise operations on unbounded naturals, defined bit by bit, with the
 arithmetic facts the masks, shifts and bitmaps of the runtime rely on.
 */
module Bits {

  /** What `usize::is_power_of_two` reports. */
  predicate IsPow2(n: nat) {
    n == 1 || (n > 1 && n % 2 == 0 && IsPow2(n / 2))
  }

  function And(a: nat, b: nat): (r: nat)
    ensures r <= a && r <= b
  {
    if a == 0 || b == 0 then 0
    else 2 * And(a / 2, b / 2) + if a % 2 == 1 && b % 2 == 1 then 1 else 0
  }

  function Or(a: nat, b: nat): (r: nat)
    ensures r >= a && r >= b && r <= a + b
  {
    if a == 0 then b
    else if b == 0 then a
    else 2 * Or(a / 2, b / 2) + if a % 2 == 1 || b % 2 == 1 then 1 else 0
  }

  /** Bit `i` of `x`. */
  predicate Bit(x: nat, i: nat) {
    if i == 0 then x % 2 == 1 else Bit(x / 2, i - 1)
  }

  lemma {:induction false} MulMono(a: nat, b: int)
    requires b >= 1
    ensures a * b >= a
  {
  }

  lemma {:induction false} ModUnique(a: nat, n: nat, k: nat, r: nat)
    requires n > 0 && r < n && a == n * k + r
    ensures a % n == r && a / n == k
  {
    var q := a / n;
    assert n * (q - k) == r - a % n by {
      assert n * (q - k) == n * q - n * k;
    }
    if q - k >= 1 {
      MulMono(n, q - k);
    } else if k - q >= 1 {
      MulMono(n, k - q);
      assert n * (k - q) == -(n * (q - k));
    }
  }

  /** Splitting the low bit off a residue modulo an even number. */
  lemma {:induction false} HalfMod(a: nat, h: nat)
    requires h > 0
    ensures a % (2 * h) == 2 * ((a / 2) % h) + a % 2
  {
    var b := a / 2;
    var k, s := b / h, b % h;
    assert b == h * k + s;
    assert (2 * h) * k == 2 * (h * k);
    ModUnique(a, 2 * h, k, 2 * s + a % 2);
  }

  /** Masking with `n - 1` is reduction modulo `n` when `n` is a power of two. */
  lemma {:induction false} AndMask(a: nat, n: nat)
    requires IsPow2(n)
    ensures And(a, n - 1) == a % n
    decreases n
  {
    if n > 1 {
      AndMask(a / 2, n / 2);
      HalfMod(a, n / 2);
      assert (n - 1) / 2 == n / 2 - 1;
      if a == 0 {
        ModUnique(0, n, 0, 0);
      }
    }
  }

  lemma {:induction false} Pow2Divides(n: nat, m: nat) returns (q: nat)
    requires IsPow2(n) && IsPow2(m) && n <= m
    ensures m == n * q
    decreases n
  {
    if n == 1 {
      q := m;
    } else {
      q := Pow2Divides(n / 2, m / 2);
      assert n * q == 2 * ((n / 2) * q);
    }
  }

  lemma {:induction false} DivMod(a: nat, n: nat)
    requires n > 0
    ensures a == n * (a / n) + a % n
  {
  }

  lemma Distribute(n: nat, a: nat, b: nat)
    ensures n * (a + b) == n * a + n * b
  {
  }

  lemma {:induction false} Regroup(n: nat, q: nat, k: nat, j: nat)
    ensures (n * q) * k + n * j == n * (q * k + j)
  {
    assert (n * q) * k == n * (q * k);
  }

  lemma {:induction false} ModOfMultiple(a: nat, n: nat, m: nat, q: nat)
    requires n > 0 && m > 0 && m == n * q
    ensures (a % m) % n == a % n
  {
    var k, r := a / m, a % m;
    var j, t := r / n, r % n;
    DivMod(a, m);
    DivMod(r, n);
    Regroup(n, q, k, j);
    ModUnique(a, n, q * k + j, t);
  }

  /** Reducing modulo a larger power of two first does not change a smaller modulus. */
  lemma ModMod(a: nat, n: nat, m: nat)
    requires IsPow2(n) && IsPow2(m) && n <= m
    ensures (a % m) % n == a % n
  {
    var q := Pow2Divides(n, m);
    ModOfMultiple(a, n, m, q);
  }

  /** `x << k` and `x >> k`. */
  function Shl(x: nat, k: nat): nat {
    if k == 0 then x else 2 * Shl(x, k - 1)
  }

  function Shr(x: nat, k: nat): nat {
    if k == 0 then x else Shr(x / 2, k - 1)
  }

  lemma Shift4(x: nat)
    ensures Shl(x, 4) == x * 16 && Shr(x, 4) == x / 16
  {
    assert Shl(x, 1) == 2 * Shl(x, 0);
    assert Shl(x, 3) == 2 * Shl(x, 2);
    assert Shr(x, 4) == Shr(x / 2, 3) == Shr(x / 2 / 2, 2);
    assert Shr(x / 2 / 2, 2) == Shr(x / 2 / 2 / 2, 1) == x / 2 / 2 / 2 / 2;
  }

  lemma Shift8(x: nat)
    ensures Shl(x, 8) == x * 0x100 && Shr(x, 8) == x / 0x100
  {
    Shift4(x);
    Shift4(x * 16);
    Shift4(x / 16);
    ShlAdd(x, 4, 4);
    ShrAdd(x, 4, 4);
  }

  lemma {:induction false} ShlAdd(x: nat, j: nat, k: nat)
    ensures Shl(Shl(x, j), k) == Shl(x, j + k)
  {
    if k > 0 {
      ShlAdd(x, j, k - 1);
    }
  }

  lemma {:induction false} ShrAdd(x: nat, j: nat, k: nat)
    ensures Shr(Shr(x, j), k) == Shr(x, j + k)
  {
    if j > 0 {
      ShrAdd(x / 2, j - 1, k);
    }
  }

  /** Shifts by the field widths in use are multiplications and divisions. */
  lemma Shift16(x: nat)
    ensures Shl(x, 16) == x * 0x1_0000 && Shr(x, 16) == x / 0x1_0000
  {
    Shift8(x);
    Shift8(x * 0x100);
    Shift8(x / 0x100);
    ShlAdd(x, 8, 8);
    ShrAdd(x, 8, 8);
  }

  lemma Shift32(x: nat)
    ensures Shl(x, 32) == x * 0x1_0000_0000 && Shr(x, 32) == x / 0x1_0000_0000
  {
    Shift16(x);
    Shift16(x * 0x1_0000);
    Shift16(x / 0x1_0000);
    ShlAdd(x, 16, 16);
    ShrAdd(x, 16, 16);
  }

  /** Fields that do not share bits are combined by addition. */
  lemma {:induction false} OrDisjoint(a: nat, k: nat, b: nat)
    requires b < Shl(1, k)
    ensures Or(Shl(a, k), b) == Shl(a, k) + b
  {
    if k > 0 {
      OrDisjoint(a, k - 1, b / 2);
    }
  }

  /** A mask whose low `k` bits are clear looks only at the bits above them. */
  lemma {:induction false} AndHigh(x: nat, m: nat, k: nat)
    ensures And(x, Shl(m, k)) == Shl(And(Shr(x, k), m), k)
  {
    if k > 0 {
      AndHigh(x / 2, m, k - 1);
    }
  }

  /** The same for a mask that selects bits from 32 up. */
  lemma AndHigh32(x: nat, m: nat)
    ensures And(x, m * 0x1_0000_0000) == And(x / 0x1_0000_0000, m) * 0x1_0000_0000
  {
    Shift32(m);
    Shift32(x);
    Shift32(And(Shr(x, 32), m));
    AndHigh(x, m, 32);
  }

  lemma AndBelow(x: nat, n: nat)
    requires IsPow2(n) && x < n
    ensures And(x, n - 1) == x
  {
    AndMask(x, n);
    ModUnique(x, n, 0, x);
  }

  lemma {:induction false} Pow2Shl(k: nat)
    ensures IsPow2(Shl(1, k))
  {
    if k > 0 {
      Pow2Shl(k - 1);
    }
  }

  lemma Pow2Sizes()
    ensures IsPow2(0x1_0000) && IsPow2(0x100_0000) && IsPow2(0x1_0000_0000)
  {
    Pow2Shl(16);
    Pow2Shl(24);
    Pow2Shl(32);
    Shift16(1);
    Shift8(0x1_0000);
    ShlAdd(1, 16, 8);
    Shift32(1);
  }

  /** Equal residues less than one modulus apart are equal numbers. */
  lemma SameResidue(a: nat, b: nat, n: nat)
    requires n > 0 && a % n == b % n && a < b + n && b < a + n
    ensures a == b
  {
    DivMod(a, n);
    DivMod(b, n);
    var d := a / n - b / n;
    assert a - b == n * d by {
      assert n * d == n * (a / n) - n * (b / n);
    }
    assert n * (0 - d) == 0 - n * d;
    if d >= 1 {
      MulMono(n, d);
    } else if d <= -1 {
      MulMono(n, 0 - d);
    }
  }

  // ---------------------------------------------------------------------
  // Single bits
  // ---------------------------------------------------------------------

  lemma {:induction false} BitZero(i: nat)
    ensures !Bit(0, i)
  {
    if i > 0 {
      BitZero(i - 1);
    }
  }

  lemma {:induction false} BitOr(a: nat, b: nat, i: nat)
    ensures Bit(Or(a, b), i) <==> Bit(a, i) || Bit(b, i)
    decreases i
  {
    BitZero(i);
    if i > 0 && a > 0 && b > 0 {
      BitOr(a / 2, b / 2, i - 1);
    }
  }

  lemma {:induction false} BitAnd(a: nat, b: nat, i: nat)
    ensures Bit(And(a, b), i) <==> Bit(a, i) && Bit(b, i)
    decreases i
  {
    BitZero(i);
    if i > 0 && a > 0 && b > 0 {
      BitAnd(a / 2, b / 2, i - 1);
    }
  }

  lemma {:induction false} BitOne(k: nat, i: nat)
    ensures Bit(Shl(1, k), i) <==> i == k
    decreases k
  {
    if k == 0 {
      if i > 0 {
        BitZero(i - 1);
      }
    } else if i > 0 {
      BitOne(k - 1, i - 1);
    }
  }

  /** The low `k` bits set: `(1 << k) - 1`. */
  lemma {:induction false} BitMask(k: nat, i: nat)
    ensures Shl(1, k) > 0 && (Bit(Shl(1, k) - 1, i) <==> i < k)
    decreases k
  {
    if k == 0 {
      BitZero(i);
    } else {
      BitMask(k - 1, if i > 0 then i - 1 else 0);
      assert (Shl(1, k) - 1) / 2 == Shl(1, k - 1) - 1;
    }
  }

  /** `!x` on a word of `w` bits. */
  function Not(x: nat, w: nat): nat {
    if w == 0 then 0 else 2 * Not(x / 2, w - 1) + 1 - x % 2
  }

  lemma {:induction false} BitNot(x: nat, w: nat, i: nat)
    ensures Bit(Not(x, w), i) <==> i < w && !Bit(x, i)
    decreases w
  {
    if w == 0 {
      BitZero(i);
    } else if i > 0 {
      BitNot(x / 2, w - 1, i - 1);
    }
  }

  lemma {:induction false} NotSum(x: nat, w: nat)
    requires x < Shl(1, w)
    ensures Not(x, w) == Shl(1, w) - 1 - x
  {
    if w > 0 {
      NotSum(x / 2, w - 1);
    }
  }

  /** On a word of `w` bits whose largest value is `top`, `!x` is `top - x`. */
  lemma BitFlip(x: nat, top: nat, w: nat, i: nat)
    requires top + 1 == Shl(1, w) && x <= top
    ensures Bit(top - x, i) <==> i < w && !Bit(x, i)
  {
    NotSum(x, w);
    BitNot(x, w, i);
  }

  lemma {:induction false} OrBound(a: nat, b: nat, k: nat)
    requires a < Shl(1, k) && b < Shl(1, k)
    ensures Or(a, b) < Shl(1, k)
  {
    if k > 0 && a > 0 && b > 0 {
      OrBound(a / 2, b / 2, k - 1);
    }
  }

  function TrailingZeros(x: nat): nat
    requires x > 0
  {
    if x % 2 == 1 then 0 else 1 + TrailingZeros(x / 2)
  }

  /** The lowest set bit. */
  lemma {:induction false} LowestBit(x: nat)
    requires x > 0
    ensures Bit(x, TrailingZeros(x))
    ensures forall i: nat | i < TrailingZeros(x) :: !Bit(x, i)
  {
    if x % 2 == 0 {
      LowestBit(x / 2);
      forall i: nat | i < TrailingZeros(x) ensures !Bit(x, i) {
        if i > 0 {
          assert !Bit(x / 2, i - 1);
        }
      }
    }
  }
}
