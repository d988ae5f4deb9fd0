// Machine words: the sixty-four bit counters of the ring and the bytes of a frame, with the bit
// operations written out on natural numbers so that a mask is arithmetic rather than a bit-vector.
module Words {
  const TWO_64: nat := 0x1_0000_0000_0000_0000
  const TWO_63: nat := 0x8000_0000_0000_0000

  type Uint64 = x: nat | x < TWO_64
  type Byte = x: nat | x < 256

  function Pow2(k: nat): (p: nat)
    ensures p >= 1
  {
    if k == 0 then 1 else 2 * Pow2(k - 1)
  }

  // Bitwise conjunction.
  function And(x: nat, y: nat): (r: nat)
    ensures r <= x && r <= y
  {
    if x == 0 || y == 0 then 0 else 2 * And(x / 2, y / 2) + (if x % 2 == y % 2 == 1 then 1 else 0)
  }

  // Bitwise exclusive or.
  function Xor(x: nat, y: nat): nat
    decreases x + y
  {
    if x == 0 && y == 0 then 0 else 2 * Xor(x / 2, y / 2) + (if x % 2 == y % 2 then 0 else 1)
  }

  // The mask of a power of two is the remainder by it.
  lemma AndMask(x: nat, k: nat)
    ensures And(x, Pow2(k) - 1) == x % Pow2(k)
  {
    MaskIsRemainder(x, k, Pow2(k));
  }

  lemma {:induction false} MaskIsRemainder(x: nat, k: nat, p: nat)
    requires p == Pow2(k)
    ensures And(x, p - 1) == x % p
  {
    if k > 0 {
      MaskIsRemainder(x / 2, k - 1, Pow2(k - 1));
      AndMaskStep(x, Pow2(k - 1), p);
    }
  }

  lemma AndMaskStep(x: nat, p: nat, q: nat)
    requires p > 0 && q == 2 * p && And(x / 2, p - 1) == (x / 2) % p
    ensures And(x, q - 1) == x % q
  {
    AndOdd(x, p - 1, q - 1);
    DoubleRemainder(x, p, q);
  }

  lemma AndOdd(x: nat, h: nat, y: nat)
    requires y == 2 * h + 1
    ensures And(x, y) == 2 * And(x / 2, h) + x % 2
  {
    assert y / 2 == h && y % 2 == 1;
  }

  lemma DoubleRemainder(x: nat, p: nat, d: nat)
    requires p > 0 && d == 2 * p
    ensures x % d == 2 * ((x / 2) % p) + x % 2
  {
    var q, r := (x / 2) / p, (x / 2) % p;
    assert x / 2 == q * p + r;
    assert q * d == 2 * (q * p);
    RemainderIs(x, d, q, 2 * r + x % 2);
  }

  // The quotient and remainder of a division are unique.
  lemma RemainderIs(x: int, d: nat, q: int, r: int)
    requires d > 0 && 0 <= r < d
    requires x == q * d + r
    ensures x % d == r && x / d == q
  {
    var q', r' := x / d, x % d;
    assert x == q' * d + r';
    assert (q - q') * d == r' - r;
    if q > q' {
      MulAtLeast(q - q', d);
    } else if q < q' {
      MulAtLeast(q' - q, d);
    }
  }

  lemma MulAtLeast(a: int, d: nat)
    requires a >= 1
    ensures a * d >= d
  {
  }

  lemma {:induction false} Pow2Add(a: nat, b: nat)
    ensures Pow2(a + b) == Pow2(a) * Pow2(b)
  {
    if a > 0 {
      Pow2Add(a - 1, b);
      assert Pow2(a + b) == 2 * Pow2(a - 1 + b);
    }
  }

  lemma Pow2Widths()
    ensures Pow2(8) == 256 && Pow2(16) == 65536
    ensures Pow2(32) == 0x1_0000_0000 && Pow2(63) == TWO_63 && Pow2(64) == TWO_64
  {
    assert Pow2(0) == 1;
    assert Pow2(1) == 2;
    assert Pow2(2) == 4;
    assert Pow2(3) == 8;
    assert Pow2(4) == 16;
    Pow2Add(4, 4);
    Pow2Add(8, 8);
    Pow2Add(16, 16);
    Pow2Add(32, 32);
    assert Pow2(64) == 2 * Pow2(63);
  }

  lemma {:induction false} Pow2Increases(a: nat, b: nat)
    requires a < b
    ensures 2 * Pow2(a) <= Pow2(b)
  {
    if a + 1 < b {
      Pow2Increases(a, b - 1);
    }
  }

  // Reducing a counter modulo 2^64 first does not change the slot a power of two mask selects.
  lemma WrapKeepsResidue(n: nat, k: nat)
    requires k <= 64
    ensures (n % TWO_64) % Pow2(k) == n % Pow2(k)
  {
    Pow2Widths();
    Pow2Add(64 - k, k);
    RemainderOfMultiple(n, Pow2(64 - k), Pow2(k));
  }

  lemma RemainderOfMultiple(n: nat, m: nat, c: nat)
    requires m > 0 && c > 0 && m * c > 0
    ensures (n % (m * c)) % c == n % c
  {
    var w := m * c;
    var q, r := n / w, n % w;
    assert n == q * w + r && r == (r / c) * c + r % c;
    Regroup(q, m, c, r / c, r % c);
    RemainderIs(n, c, q * m + r / c, r % c);
  }

  lemma Regroup(q: nat, m: nat, c: nat, a: nat, b: nat)
    ensures q * (m * c) + (a * c + b) == (q * m + a) * c + b
  {
  }

  // Two counters less than `d` apart have different remainders.
  lemma ResidueInjective(i: nat, j: nat, d: nat)
    requires i < j < i + d
    ensures i % d != j % d
  {
    if i % d == j % d {
      var qi, qj := i / d, j / d;
      assert j - i == (qj - qi) * d;
      if qj > qi {
        MulAtLeast(qj - qi, d);
      }
    }
  }

  lemma ResidueShift(n: nat, d: nat)
    requires d > 0
    ensures (n + d) % d == n % d
  {
    RemainderIs(n + d, d, n / d + 1, n % d);
  }

  // Applying the same key twice gives the value back, which is why one routine masks and unmasks.
  lemma {:induction false} XorInvolution(x: nat, y: nat)
    ensures Xor(Xor(x, y), y) == x
    decreases x + y
  {
    if x != 0 || y != 0 {
      XorInvolution(x / 2, y / 2);
      XorHalves(x, y);
      XorBack(x, y, Xor(x, y));
    }
  }

  lemma XorBack(x: nat, y: nat, u: nat)
    requires u % 2 == (if x % 2 == y % 2 then 0 else 1) && Xor(u / 2, y / 2) == x / 2
    ensures Xor(u, y) == x
  {
    XorHalves(u, y);
  }

  // A word is its upper bits and its lowest one, and so is an exclusive or.
  lemma XorHalves(x: nat, y: nat)
    ensures Xor(x, y) / 2 == Xor(x / 2, y / 2) && Xor(x, y) % 2 == (if x % 2 == y % 2 then 0 else 1)
  {
  }

  // The j-th binary digit.
  function Bit(x: nat, j: nat): nat {
    if j == 0 then x % 2 else Bit(x / 2, j - 1)
  }

  // Digit by digit an exclusive or is one where the two differ.
  lemma {:induction false} XorBits(x: nat, y: nat, j: nat)
    ensures Bit(Xor(x, y), j) == if Bit(x, j) == Bit(y, j) then 0 else 1
  {
    XorHalves(x, y);
    if j > 0 {
      XorBits(x / 2, y / 2, j - 1);
    }
  }

  lemma {:induction false} XorBound(x: nat, y: nat, k: nat)
    requires x < Pow2(k) && y < Pow2(k)
    ensures Xor(x, y) < Pow2(k)
  {
    if k > 0 && (x != 0 || y != 0) {
      XorBound(x / 2, y / 2, k - 1);
    }
  }

  // Subtraction of unsigned words.
  function WordDifference(a: Uint64, b: Uint64): Uint64 {
    (a - b + TWO_64) % TWO_64
  }

  lemma DifferenceInOrder(a: Uint64, b: Uint64)
    ensures b <= a ==> WordDifference(a, b) == a - b
  {
  }
}
