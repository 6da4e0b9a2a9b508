/** The 64-bit word in which the semaphore keeps its capacity and its holder count. */
module Word {

  const HALF: nat := 0x1_0000_0000
  const FULL: nat := HALF * HALF

  /** Bitwise or of two non-negative integers. */
  function BitOr(a: nat, b: nat): nat
    decreases a + b
  {
    if a == 0 && b == 0 then 0
    else 2 * BitOr(a / 2, b / 2) + if a % 2 == 1 || b % 2 == 1 then 1 else 0
  }

  /** Bitwise and of two non-negative integers. */
  function BitAnd(a: nat, b: nat): nat
    decreases a + b
  {
    if a == 0 || b == 0 then 0
    else 2 * BitAnd(a / 2, b / 2) + if a % 2 == 1 && b % 2 == 1 then 1 else 0
  }

  function Pow2(k: nat): (p: nat)
    ensures p > 0
  {
    if k == 0 then 1 else 2 * Pow2(k - 1)
  }

  lemma {:induction false} Pow2Adds(j: nat, k: nat)
    ensures Pow2(j + k) == Pow2(j) * Pow2(k)
  {
    if j == 0 {
    } else {
      Pow2Adds(j - 1, k);
      calc {
        Pow2(j + k);
        2 * Pow2(j - 1 + k);
        2 * (Pow2(j - 1) * Pow2(k));
        (2 * Pow2(j - 1)) * Pow2(k);
      }
    }
  }

  lemma Pow2Of32()
    ensures Pow2(32) == HALF
  {
    assert Pow2(8) == 256;
    Pow2Adds(8, 8);
    Pow2Adds(16, 16);
  }

  /** Or-ing a number below 2^k into a multiple of 2^k adds it. */
  lemma {:induction false} OrIsPlus(l: nat, r: nat, k: nat)
    requires r < Pow2(k)
    ensures BitOr(l * Pow2(k), r) == l * Pow2(k) + r
  {
    if k == 0 {
      OrZero(l);
    } else {
      var p := Pow2(k - 1);
      assert l * Pow2(k) == 2 * (l * p);
      OrIsPlus(l, r / 2, k - 1);
    }
  }

  lemma {:induction false} OrZero(a: nat)
    ensures BitOr(a, 0) == a
  {
    if a == 0 {
    } else {
      OrZero(a / 2);
    }
  }

  /** Masking with 2^k - 1 keeps the remainder modulo 2^k. */
  lemma {:induction false} AndIsMod(a: nat, k: nat)
    ensures BitAnd(a, Pow2(k) - 1) == a % Pow2(k)
  {
    if a == 0 || k == 0 {
    } else {
      var p := Pow2(k - 1);
      AndIsMod(a / 2, k - 1);
      assert (2 * p - 1) / 2 == p - 1;
      HalfMod(a, p);
    }
  }

  lemma HalfMod(a: nat, p: nat)
    requires p > 0
    ensures a % (2 * p) == 2 * (a / 2 % p) + a % 2
  {
    var q, r := a / 2 / p, a / 2 % p;
    assert a / 2 == q * p + r;
    assert a == q * (2 * p) + (2 * r + a % 2);
    ModUnique(a, 2 * p, q, 2 * r + a % 2);
  }

  lemma ModUnique(a: nat, m: nat, q: nat, r: nat)
    requires m > 0 && r < m && a == q * m + r
    ensures a % m == r && a / m == q
  {
    var q', r' := a / m, a % m;
    assert a == q' * m + r';
    if q > q' {
      MultiplesApart(q, q', m);
    } else if q < q' {
      MultiplesApart(q', q, m);
    }
  }

  lemma {:induction false} MultiplesApart(q: nat, q': nat, m: nat)
    requires q > q'
    ensures q * m >= q' * m + m
  {
    assert q * m == (q - 1) * m + m;
    if q == q' + 1 {
    } else {
      MultiplesApart(q - 1, q', m);
    }
  }

  lemma {:induction false} OrBelow(a: nat, b: nat, k: nat)
    requires a < Pow2(k) && b < Pow2(k)
    ensures BitOr(a, b) < Pow2(k)
  {
    if k == 0 {
    } else {
      OrBelow(a / 2, b / 2, k - 1);
    }
  }

  type Uint64 = w: int | 0 <= w < FULL

  /** A shift by 32 drops what leaves the word. */
  lemma ShiftDrops(left: Uint64)
    ensures left * HALF % FULL == left % HALF * HALF
  {
    var q, r := left / HALF, left % HALF;
    assert left * HALF == q * FULL + r * HALF;
    ModUnique(left * HALF, FULL, q, r * HALF);
  }

  /** `left << 32 | right`. */
  function Pack(left: Uint64, right: Uint64): (w: Uint64)
    ensures right < HALF ==> w == left % HALF * HALF + right
    ensures left < HALF && right < HALF ==> w == left * HALF + right
  {
    Pow2Of32();
    Pow2Adds(32, 32);
    OrBelow(left * HALF % FULL, right, 64);
    ShiftDrops(left);
    if right < HALF then
      OrIsPlus(left % HALF, right, 32);
      BitOr(left * HALF % FULL, right)
    else
      BitOr(left * HALF % FULL, right)
  }

  /** The two halves of a loaded word; `Unpack` returns exactly these. */
  function Capacity(w: Uint64): Uint64 { w / HALF }
  function In(w: Uint64): Uint64 { w % HALF }

  /** `in >> 32, in & 0xffffffff`. */
  function Unpack(w: Uint64): (halves: (Uint64, Uint64))
    ensures halves == (Capacity(w), In(w))
  {
    Pow2Of32();
    AndIsMod(w, 32);
    (w / HALF, BitAnd(w, 0xffff_ffff))
  }

  /** Unpacking undoes packing for 32-bit halves. */
  lemma UnpackPack(left: Uint64, right: Uint64)
    requires left < HALF && right < HALF
    ensures Unpack(Pack(left, right)) == (left, right)
  {
    ModUnique(Pack(left, right), HALF, left, right);
  }

  /** Packing undoes unpacking for every word. */
  lemma PackUnpack(w: Uint64)
    ensures Unpack(w).0 < HALF && Unpack(w).1 < HALF
    ensures Pack(Unpack(w).0, Unpack(w).1) == w
  {
  }

  /** Decrement of an unsigned 64-bit integer, wrapping below zero. */
  function Dec(n: Uint64): (r: Uint64)
    ensures (r + 1) % FULL == n
  {
    if n == 0 then FULL - 1 else n - 1
  }
}
