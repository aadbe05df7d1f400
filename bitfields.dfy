/** The bit-field extractor shared by the three digitizer decoders.

    Header and payload words are unsigned integers below 2^W for a model's
    word width W.  A mask `x & (2^w - 1)` is `x % 2^w` and a right shift
    `x >> s` is `x / 2^s`, so every field the decoders slice out of a word is
    written as `(x / 2^s) % 2^w`, with the powers of two spelt out as
    literals. */
module BitFields {

  /** The numpy dtype cast of a word to an unsigned `width`-bit integer
      as the decoders make it: the value modulo `bound = 2^W`. */
  function Cast(words: seq<nat>, bound: nat): (r: seq<nat>)
    requires bound > 0
    ensures |r| == |words|
    ensures forall i :: 0 <= i < |r| ==> r[i] < bound
    ensures (forall i :: 0 <= i < |words| ==> words[i] < bound) ==> r == words
  {
    CastElements(words, bound);
    seq(|words|, i requires 0 <= i < |words| => words[i] % bound)
  }

  lemma CastElements(words: seq<nat>, bound: nat)
    requires bound > 0
    ensures forall i :: 0 <= i < |words| ==> words[i] % bound < bound
    ensures forall i :: 0 <= i < |words| && words[i] < bound ==> words[i] % bound == words[i]
  {
    forall i | 0 <= i < |words| && words[i] < bound
      ensures words[i] % bound == words[i]
    {
      DivModUnique(words[i], bound, 0, words[i]);
    }
  }

  /** Unique Euclidean division: a value written as `q * d + r` with
      `0 <= r < d` has quotient `q` and remainder `r`. */
  lemma DivModUnique(x: int, d: int, q: int, r: int)
    requires 0 <= r < d
    requires x == q * d + r
    ensures x / d == q && x % d == r
  {
    var q', r' := x / d, x % d;
    assert x == q' * d + r';
    if q' > q {
      assert (q' - q) * d == q' * d - q * d;
      MulAtLeast(q' - q, d);
    } else if q' < q {
      assert (q - q') * d == q * d - q' * d;
      MulAtLeast(q - q', d);
    }
  }

  lemma {:induction false} MulAtLeast(k: int, d: int)
    requires k >= 1 && d > 0
    ensures k * d >= d
  {
    if k > 1 {
      MulAtLeast(k - 1, d);
      assert k * d == (k - 1) * d + d;
    }
  }

  /** Reading back the middle field of a packed word: with `low < unit` and
      `mid < width`, the field of width `width` that starts at `unit` in
      `low + unit * mid + unit * width * high` is `mid`, and the bits below
      `unit` are `low`. */
  lemma {:induction false} FieldOfPacked(low: nat, mid: nat, high: nat, unit: nat, width: nat)
    requires low < unit && mid < width
    ensures (low + unit * mid + unit * width * high) / unit % width == mid
    ensures (low + unit * mid + unit * width * high) % unit == low
    ensures (low + unit * mid + unit * width * high) / (unit * width) == high
  {
    var x := low + unit * mid + unit * width * high;
    assert x == (mid + width * high) * unit + low by {
      Distribute(mid, width * high, unit);
      Associate(width, high, unit);
      Associate(unit, width, high);
    }
    DivModUnique(x, unit, mid + width * high, low);
    DivModUnique(mid + width * high, width, high, mid);
    assert low + unit * mid < unit * width by {
      Distribute(mid, width - mid, unit);
      MulAtLeast(width - mid, unit);
    }
    assert x == high * (unit * width) + (low + unit * mid);
    DivModUnique(x, unit * width, high, low + unit * mid);
  }

  /** Shifting right by `a` bits and then by `b` bits is one shift by both. */
  lemma DivDiv(x: nat, a: nat, b: nat)
    requires a > 0 && b > 0
    ensures x / a / b == x / (a * b)
  {
    var q, r1 := x / a, x % a;
    var q2, r2 := q / b, q % b;
    assert x == q2 * (a * b) + (r2 * a + r1) by {
      Distribute(q2 * b, r2, a);
      Associate(q2, b, a);
    }
    assert r2 * a + r1 < a * b by {
      Distribute(r2, b - r2, a);
      MulAtLeast(b - r2, a);
    }
    DivModUnique(x, a * b, q2, r2 * a + r1);
  }

  lemma Distribute(x: int, y: int, k: int)
    ensures (x + y) * k == x * k + y * k
  {
  }

  lemma Associate(x: int, y: int, k: int)
    ensures x * y * k == x * (k * y)
  {
  }

  /** A value is its low field, its middle field and its high part put
      back together. */
  lemma Recompose(x: nat, unit: nat, width: nat)
    requires unit > 0 && width > 0
    ensures x == x % unit + unit * (x / unit % width) + unit * width * (x / (unit * width))
  {
    var q := x / unit;
    DivDiv(x, unit, width);
    assert q == width * (q / width) + q % width;
    assert x == unit * q + x % unit;
    assert unit * q == unit * (q % width) + unit * width * (q / width) by {
      Distribute(width * (q / width), q % width, unit);
      Associate(width, q / width, unit);
    }
  }

  /** Number of set bits of `x`: Python's `bin(x).count('1')`. */
  function PopCount(x: nat): nat
  {
    if x == 0 then 0 else x % 2 + PopCount(x / 2)
  }

  /** `2^n` */
  function Pow2(n: nat): (r: nat)
    ensures r >= 1
  {
    if n == 0 then 1 else 2 * Pow2(n - 1)
  }

  /** A mask is empty exactly when it has no set bit, and a mask below `2^n`
      has at most `n` set bits (a 16-bit mask enables at most 16 channels, a
      64-bit mask at most 64). */
  lemma {:induction false} PopCountBound(x: nat, n: nat)
    requires x < Pow2(n)
    ensures PopCount(x) <= n
    ensures PopCount(x) == 0 <==> x == 0
  {
    if x != 0 {
      assert n > 0;
      PopCountBound(x / 2, n - 1);
    }
  }

  /** The literal powers of two the decoders use. */
  lemma Pow2Literals()
    ensures Pow2(8) == 0x100 && Pow2(16) == 0x1_0000 && Pow2(32) == 0x1_0000_0000
    ensures Pow2(64) == 0x1_0000_0000_0000_0000
  {
    assert Pow2(4) == 16;
    assert Pow2(8) == 0x100 by {
      assert Pow2(5) == 32; assert Pow2(6) == 64; assert Pow2(7) == 128;
    }
    assert Pow2(16) == 0x1_0000 by { Pow2Add(8, 8); }
    assert Pow2(32) == 0x1_0000_0000 by { Pow2Add(16, 16); }
    Pow2Add(32, 32);
  }

  lemma {:induction false} Pow2Add(a: nat, b: nat)
    ensures Pow2(a + b) == Pow2(a) * Pow2(b)
  {
    if a > 0 {
      Pow2Add(a - 1, b);
    }
  }
}
