/** Powers of two, multiples, and the padding between them. */
module Alignment {
  import opened Bytes

  predicate IsPow2(n: nat): (r: bool)
    ensures r ==> n > 0
  {
     n == 1 || (n > 1 && n % 2 == 0 && IsPow2(n / 2))
  }

  predicate IsWidth(w: nat) { w == 1 || w == 2 || w == 4 || w == 8 }

  lemma WidthPow2(w: nat)
    requires IsWidth(w)
    ensures IsPow2(w)
  {
    assert IsPow2(1) && IsPow2(2) && IsPow2(4) && IsPow2(8);
  }

  /** `x` is a multiple of `w`. */
  predicate Multiple(x: int, w: nat)
    requires w > 0
  {
    x % w == 0
  }

  lemma Times(q: nat, w: nat)
    requires w > 0
    ensures Multiple(q * w, w)
  {
    DivUnique(q * w, w, q, 0);
  }

  lemma Quotient(x: nat, w: nat)
    requires w > 0 && Multiple(x, w)
    ensures x == x / w * w
  {
  }

  lemma Sum(x: nat, y: nat, w: nat)
    requires w > 0 && Multiple(x, w) && Multiple(y, w)
    ensures Multiple(x + y, w)
  {
    hide Multiple;
    Quotient(x, w);
    Quotient(y, w);
    assert x + y == (x / w + y / w) * w;
    Times(x / w + y / w, w);
  }

  lemma Difference(x: nat, y: nat, w: nat)
    requires w > 0 && Multiple(x, w) && Multiple(y, w) && y <= x
    ensures Multiple(x - y, w)
  {
    hide Multiple;
    Quotient(x, w);
    Quotient(y, w);
    var q := x / w - y / w;
    assert x - y == q * w;
    Sign(q, w);
    Times(q, w);
  }

  lemma Sign(q: int, w: nat)
    requires w > 0 && q * w >= 0
    ensures q >= 0
  {
  }

  lemma Positive(q: int, w: nat)
    requires w > 0 && q * w > 0
    ensures q > 0
  {
  }

  lemma Small(x: nat, w: nat)
    requires w > 0 && Multiple(x, w) && x < w
    ensures x == 0
  {
  }

  lemma Itself(w: nat)
    requires w > 0
    ensures Multiple(w, w)
  {
    Times(1, w);
  }

  /** A multiple of a multiple. */
  lemma Transitive(x: nat, m: nat, w: nat)
    requires m > 0 && w > 0 && Multiple(x, m) && Multiple(m, w)
    ensures Multiple(x, w)
  {
    hide Multiple;
    Quotient(x, m);
    Quotient(m, w);
    assert x == x / m * (m / w * w) == x / m * (m / w) * w;
    Times(x / m * (m / w), w);
  }

  /** Whole rounds do not matter. */
  lemma WholeRounds(x: int, q: int, w: nat)
    requires w > 0
    ensures (x + q * w) % w == x % w
  {
    var d := (x + q * w) / w - x / w - q;
    assert d * w == x % w - (x + q * w) % w;
    NoMultiple(d, w);
  }

  /** A multiple smaller than the factor is 0. */
  lemma NoMultiple(d: int, w: nat)
    requires w > 0 && 0 - w < d * w < w
    ensures d == 0
  {
    assert (d + 1) * w == d * w + w;
    assert (1 - d) * w == w - d * w;
    Positive(d + 1, w);
    Positive(1 - d, w);
  }

  lemma AddWrapped(a: int, b: int, w: nat)
    requires w > 0
    ensures (a % w + b) % w == (a + b) % w
  {
    WholeRounds(a % w + b, a / w, w);
    assert a % w + b + a / w * w == a + b;
  }

  /** Numbers less than the modulus apart leave different remainders. */
  lemma RemaindersDiffer(a: int, b: int, w: nat)
    requires w > 0 && 0 < b - a < w
    ensures a % w != b % w
  {
    if a % w == b % w {
      var d := b / w - a / w;
      assert d * w == b - a;
      NoMultiple(d, w);
    }
  }

  lemma FourTwo(x: nat)
    requires Multiple(x, 4)
    ensures Multiple(x, 2)
  {
    Transitive(x, 4, 2);
  }

  lemma PlusFour(x: nat)
    requires Multiple(x, 4)
    ensures Multiple(x + 4, 4)
  {
  }

  /** Of two powers of two the smaller divides the larger. */
  lemma {:induction false} Pow2Divides(a: nat, b: nat)
    requires IsPow2(a) && IsPow2(b) && a <= b
    ensures Multiple(b, a)
  {
    if a > 1 {
      Pow2Divides(a / 2, b / 2);
      Double(a / 2, b / 2);
    }
  }

  lemma Double(a: nat, b: nat)
    requires a > 0 && Multiple(b, a)
    ensures Multiple(2 * b, 2 * a)
  {
    hide Multiple;
    Quotient(b, a);
    assert 2 * b == b / a * (2 * a);
    Times(b / a, 2 * a);
  }

  /** The padding that makes the offset a multiple of `size` once `additional` bytes follow. For a
      power of two this is what the code's complement-and-mask computes. */
  function Gap(offset: nat, size: nat, additional: nat): (g: nat)
    requires size > 0
    ensures g < size
  {
    var m := (offset + additional) % size;
    if m == 0 then 0 else size - m
  }

  /** It does, and it is the least padding that does. */
  lemma GapAligns(offset: nat, size: nat, additional: nat)
    requires size > 0
    ensures Multiple(offset + Gap(offset, size, additional) + additional, size)
  {
    var x := offset + additional;
    if x % size != 0 {
      assert x + (size - x % size) == (x / size + 1) * size;
      Times(x / size + 1, size);
    }
  }

  lemma GapLeast(offset: nat, size: nat, additional: nat, g: nat)
    requires size > 0 && Multiple(offset + g + additional, size)
    ensures Gap(offset, size, additional) <= g
  {
    var least := Gap(offset, size, additional);
    if g < least {
      GapAligns(offset, size, additional);
      Difference(offset + least + additional, offset + g + additional, size);
      Small(least - g, size);
    }
  }

  lemma AlreadyAligned(offset: nat, w: nat)
    requires w > 0 && Multiple(offset, w)
    ensures Gap(offset, w, 0) == 0
  {
  }

  /** Width `w`, aligned and placed: the offset is a multiple of `w`. */
  lemma Aligned(offset: nat, w: nat)
    requires w > 0
    ensures Multiple(offset + Gap(offset, w, 0) + w, w)
  {
    hide Multiple, Gap;
    GapAligns(offset, w, 0);
    Itself(w);
    Sum(offset + Gap(offset, w, 0), w, w);
  }

  /** Aligning a multiple of 4 to another power of two leaves it one. */
  lemma StillFour(x: nat, y: nat, a: nat)
    requires IsPow2(a) && Multiple(x, 4) && Multiple(y, a) && x <= y < x + a && (Multiple(x, a) ==> y == x)
    ensures Multiple(y, 4)
  {
    if a >= 4 {
      assert IsPow2(4);
      Pow2Divides(4, a);
      Transitive(y, a, 4);
    } else {
      assert a == 1 || a == 2;
      FourTwo(x);
    }
  }

  /** A multiple of 4 is one of every smaller power of two. */
  lemma SmallDivides(x: nat, a: nat)
    requires IsPow2(a) && Multiple(x, 4)
    ensures a < 4 ==> Multiple(x, a)
  {
    if a < 4 {
      assert a == 1 || a == 2;
      FourTwo(x);
    }
  }

  /** From the start of a buffer whose length is a multiple of the largest width, every width is as
      aligned as from its end. */
  lemma FromStart(total: nat, m: nat, off: nat, w: nat)
    requires IsPow2(m) && IsPow2(w) && w <= m && off <= total && Multiple(total, m) && Multiple(off, w)
    ensures Multiple(total - off, w)
  {
    Pow2Divides(w, m);
    Transitive(total, m, w);
    Difference(total, off, w);
  }

  /** With some words to go to a multiple of a power of two that is 4 or more, words are aligned. */
  lemma WordsToGo(x: nat, n: nat, m: nat)
    requires IsPow2(m) && m >= 4 && Multiple(x + n, m) && Multiple(n, 4)
    ensures Multiple(x, 4)
  {
    hide Multiple;
    assert IsPow2(4);
    Pow2Divides(4, m);
    Transitive(x + n, m, 4);
    Difference(x + n, n, 4);
  }
}
