/** Little-endian encoding of the integer and offset types. `Put(n, w)` is what WriteUint8/16/32/64
    store for the widths 1, 2, 4 and 8, and `Get` what GetUint8/16/32/64 compute. */
module Bytes {

  type byte = x: int | 0 <= x < 256

  /** The number of values of `w` bytes. */
  function Range(w: nat): (r: nat)
    ensures r > 0
  {
    if w == 0 then 1 else 256 * Range(w - 1)
  }

  function Put(n: nat, w: nat): (b: seq<byte>)
    ensures |b| == w
  {
    if w == 0 then [] else [n % 256] + Put(n / 256, w - 1)
  }

  function Get(b: seq<byte>): nat {
    if b == [] then 0 else b[0] + 256 * Get(b[1..])
  }

  /** Reading back what was written gives the value, truncated to its width. */
  lemma {:induction false} GetPut(n: nat, w: nat)
    ensures Get(Put(n, w)) == n % Range(w)
  {
    if w > 0 {
      GetPut(n / 256, w - 1);
      ModSplit(n, Range(w - 1));
    }
  }

  lemma ModSplit(n: nat, r: nat)
    requires r > 0
    ensures n % 256 + 256 * (n / 256 % r) == n % (256 * r)
  {
    var q, m := n / 256 / r, n / 256 % r;
    assert n / 256 == q * r + m;
    assert n == 256 * (q * r + m) + n % 256;
    assert n == q * (256 * r) + (256 * m + n % 256);
    assert 0 <= 256 * m + n % 256 < 256 * r;
    DivUnique(n, 256 * r, q, 256 * m + n % 256);
  }

  lemma DivUnique(n: nat, d: nat, q: nat, r: nat)
    requires d > 0 && n == q * d + r && r < d
    ensures n % d == r
  {
    var k := n / d - q;
    assert k * d == r - n % d;
    if k >= 1 {
      LeastProduct(k, d);
    } else if k <= -1 {
      LeastProduct(-k, d);
    }
  }

  lemma LeastProduct(k: nat, d: nat)
    requires k >= 1
    ensures k * d >= d
  {
    assert k * d == (k - 1) * d + d;
  }

  /** Writing back what was read gives the bytes. */
  lemma {:induction false} PutGet(b: seq<byte>)
    ensures Get(b) < Range(|b|) && Put(Get(b), |b|) == b
  {
    if b != [] {
      PutGet(b[1..]);
      assert Get(b) % 256 == b[0] && Get(b) / 256 == Get(b[1..]);
    }
  }

  /** The least significant byte comes first: byte `i` is the digit of weight 256^i. */
  lemma {:induction false} PutLittleEndian(n: nat, w: nat, i: nat)
    requires i < w
    ensures Put(n, w)[i] == n / Range(i) % 256
    decreases w
  {
    if i > 0 {
      PutLittleEndian(n / 256, w - 1, i - 1);
      DivTwice(n, Range(i - 1));
    } else {
      assert Range(0) == 1;
    }
  }

  lemma {:induction false} GetLittleEndian(b: seq<byte>, i: nat)
    requires i < |b|
    ensures Get(b) / Range(i) % 256 == b[i]
  {
    PutGet(b);
    PutLittleEndian(Get(b), |b|, i);
  }

  lemma DivTwice(n: nat, r: nat)
    requires r > 0
    ensures n / 256 / r == n / (256 * r)
  {
    var h := n / 256;
    Regrouped(n, h / r, h % r, n % 256, r);
  }

  lemma Regrouped(n: nat, q: nat, m: nat, x: nat, r: nat)
    requires m < r && x < 256 && n == 256 * (q * r + m) + x
    ensures n / (256 * r) == q
  {
    assert 256 * (q * r) == q * (256 * r);
    QuotientUnique(n, 256 * r, q, 256 * m + x);
  }

  lemma QuotientUnique(n: nat, d: nat, q: nat, r: nat)
    requires d > 0 && n == q * d + r && r < d
    ensures n / d == q
  {
    DivUnique(n, d, q, r);
    var k := n / d - q;
    assert k * d == 0;
  }

  lemma Ranges()
    ensures Range(1) == 0x100 && Range(2) == 0x1_0000 && Range(4) == 0x1_0000_0000
    ensures Range(8) == 0x1_0000_0000_0000_0000
  {
    assert Range(0) == 1;
    assert Range(2) == 256 * Range(1);
    assert Range(3) == 256 * Range(2);
    assert Range(4) == 256 * Range(3);
    assert Range(5) == 256 * Range(4);
    assert Range(6) == 256 * Range(5);
    assert Range(7) == 256 * Range(6);
  }

  /** Reading back a value that fits its width gives the value. */
  lemma RoundTrip(n: nat, w: nat)
    requires n < Range(w)
    ensures Get(Put(n, w)) == n
  {
    GetPut(n, w);
  }

  // ---- signed offsets: 32-bit two's complement ----

  const TWO31: int := 0x8000_0000
  const TWO32: int := 0x1_0000_0000

  function U32(x: int): nat { x % TWO32 }

  function Signed(n: nat): int { if n >= TWO31 then n - TWO32 else n }

  function PutSigned(x: int): (b: seq<byte>)
    ensures |b| == 4
  {
    Put(U32(x), 4)
  }

  function GetSigned(b: seq<byte>): int { Signed(Get(b)) }

  /** Two's complement, least significant byte first. */
  lemma SignedLittleEndian(x: int, i: nat)
    requires -TWO31 <= x < TWO31 && i < 4
    ensures PutSigned(x)[i] == (if x < 0 then x + TWO32 else x) / Range(i) % 256
  {
    PutLittleEndian(U32(x), 4, i);
  }

  /** What is read is the signed 32-bit number that differs from the unsigned one by a multiple of 2^32. */
  lemma SignedIsCongruent(b: seq<byte>)
    requires |b| == 4
    ensures -TWO31 <= GetSigned(b) < TWO31
    ensures GetSigned(b) == Get(b) || GetSigned(b) == Get(b) - TWO32
  {
    Ranges();
    PutGet(b);
  }

  lemma SignedRoundTrip(x: int)
    requires -TWO31 <= x < TWO31
    ensures GetSigned(PutSigned(x)) == x
  {
    Ranges();
    RoundTrip(U32(x), 4);
  }
}
