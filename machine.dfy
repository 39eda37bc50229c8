/** Fixed-width integer arithmetic of the C++ side, written out explicitly
    over Dafny's unbounded integers. */
module Machine {
  const TWO_32: int := 0x1_0000_0000
  const TWO_63: int := 0x8000_0000_0000_0000
  const TWO_64: int := 0x1_0000_0000_0000_0000

  predicate IsU64(x: int) { 0 <= x < TWO_64 }
  predicate IsU32(x: int) { 0 <= x < TWO_32 }
  predicate IsI64(x: int) { -TWO_63 <= x < TWO_63 }
  predicate IsI32(x: int) { -0x8000_0000 <= x < 0x8000_0000 }

  /** Conversion of any integer to uint64 (reduction modulo 2^64). */
  function U64(x: int): (r: int)
    ensures IsU64(r)
    ensures (r - x) % TWO_64 == 0
    ensures IsU64(x) ==> r == x
  {
    x % TWO_64
  }

  /** Conversion of any integer to uint32 (reduction modulo 2^32). */
  function U32(x: int): (r: int)
    ensures IsU32(r)
    ensures (r - x) % TWO_32 == 0
    ensures IsU32(x) ==> r == x
  {
    x % TWO_32
  }

  /** Two's complement reinterpretation of a 64-bit pattern as int64. */
  function I64(x: int): (r: int)
    ensures IsI64(r)
    ensures (r - x) % TWO_64 == 0
    ensures IsI64(x) ==> r == x
  {
    var u := x % TWO_64;
    if u < TWO_63 then u else u - TWO_64
  }

  /** Two's complement reinterpretation of a 32-bit pattern as int32. */
  function I32(x: int): (r: int)
    ensures IsI32(r)
    ensures (r - x) % TWO_32 == 0
    ensures IsI32(x) ==> r == x
  {
    var u := x % TWO_32;
    if u < 0x8000_0000 then u else u - TWO_32
  }

  function Pow2(n: nat): (r: nat)
    ensures r >= 1
  {
    if n == 0 then 1 else 2 * Pow2(n - 1)
  }

  lemma {:induction false} Pow2Add(a: nat, b: nat)
    ensures Pow2(a + b) == Pow2(a) * Pow2(b)
  {
    if a > 0 { Pow2Add(a - 1, b); }
  }

  lemma {:induction false} Pow2Monotone(a: nat, b: nat)
    requires a <= b
    ensures Pow2(a) <= Pow2(b)
  {
    if a < b { Pow2Monotone(a, b - 1); }
  }

  lemma Pow2At64()
    ensures Pow2(64) == TWO_64 && Pow2(63) == TWO_63 && Pow2(32) == TWO_32
  {
    assert Pow2(1) == 2;
    Pow2Add(1, 1);
    assert Pow2(2) == 4;
    Pow2Add(2, 2);
    assert Pow2(4) == 16;
    Pow2Add(4, 4);
    assert Pow2(8) == 256;
    Pow2Add(8, 8);
    assert Pow2(16) == 0x1_0000;
    Pow2Add(16, 16);
    assert Pow2(32) == TWO_32;
    Pow2Add(32, 32);
    assert Pow2(64) == TWO_64;
    assert Pow2(64) == 2 * Pow2(63);
  }

  lemma MulAtLeast(a: int, m: int)
    requires a >= 1 && m > 0
    ensures a * m >= m
  {
    assert a * m == (a - 1) * m + m;
    assert (a - 1) * m >= 0;
  }

  /** Quotient and remainder are unique: any decomposition n == q * m + s
      with 0 <= s < m is the one `/` and `%` compute. */
  lemma DivModUnique(n: int, m: int, q: int, s: int)
    requires m > 0 && 0 <= s < m && n == q * m + s
    ensures n % m == s && n / m == q
  {
    var q', s' := n / m, n % m;
    assert n == q' * m + s';
    assert (q - q') * m == s' - s;
    if q > q' {
      MulAtLeast(q - q', m);
    } else if q < q' {
      MulAtLeast(q' - q, m);
    }
  }
}
