// Fixed-width little-endian integers.
module LittleEndian {
  import opened Machine

  /** Number of values that fit in `width` bytes. */
  function Span(width: nat): (s: nat)
    ensures s >= 1
  {
    if width == 0 then 1 else 256 * Span(width - 1)
  }

  function ToLe(n: nat, width: nat): (b: Bytes)
    ensures |b| == width
    decreases width, n
  {
    if width == 0 then [] else [n % 256] + ToLe(n / 256, width - 1)
  }

  function FromLe(b: Bytes): (n: nat)
    ensures n < Span(|b|)
  {
    if b == [] then 0 else b[0] + 256 * FromLe(b[1..])
  }

  /** Decoding inverts encoding on every value that fits the width. */
  lemma {:induction false} DecodeEncode(n: nat, width: nat)
    requires n < Span(width)
    ensures FromLe(ToLe(n, width)) == n
    decreases width
  {
    if width > 0 {
      DecodeEncode(n / 256, width - 1);
      assert ToLe(n, width)[1..] == ToLe(n / 256, width - 1);
    }
  }

  /** Encoding inverts decoding on every byte string. */
  lemma {:induction false} EncodeDecode(b: Bytes)
    ensures ToLe(FromLe(b), |b|) == b
  {
    if b != [] {
      EncodeDecode(b[1..]);
      assert FromLe(b) % 256 == b[0] && FromLe(b) / 256 == FromLe(b[1..]);
    }
  }

  /** Byte `i` of an encoding is digit `i` of the value in base 256: the low byte
      comes first. */
  lemma {:induction false} DigitAt(n: nat, width: nat, i: nat)
    requires i < width
    ensures ToLe(n, width)[i] == (n / Span(i)) % 256
    decreases width
  {
    if i > 0 {
      DigitAt(n / 256, width - 1, i - 1);
      DivideTwice(n, Span(i - 1));
    }
  }

  lemma DivideTwice(n: nat, k: nat)
    requires k > 0
    ensures n / 256 / k == n / (256 * k)
  {
    var q, rest := n / 256 / k, (n / 256) % k;
    assert n / 256 == q * k + rest;
    assert 256 * (q * k) == q * (256 * k);
    QuotientUnique(n, 256 * k, q, 256 * rest + n % 256);
  }

  lemma QuotientUnique(n: nat, d: nat, q: nat, r: nat)
    requires r < d && n == q * d + r
    ensures n / d == q
  {
    var p := n / d;
    assert n == p * d + n % d;
    Scale(p + 1, q, d);
    Scale(q + 1, p, d);
    Scale(p, p, d);
    Scale(q, q, d);
  }

  lemma Scale(a: nat, b: nat, d: nat)
    ensures a <= b ==> a * d <= b * d
    ensures (a + 1) * d == a * d + d
  {
    if a <= b {
      assert b * d == a * d + (b - a) * d;
    }
  }

  lemma Widths()
    ensures Span(4) == U32_SPAN
    ensures Span(8) == U64_SPAN
    ensures Span(16) == U128_SPAN
  {
    assert Span(4) == 0x1_0000_0000;
    assert Span(8) == 256 * 256 * 256 * 256 * Span(4);
    assert Span(12) == 256 * 256 * 256 * 256 * Span(8);
    assert Span(16) == 256 * 256 * 256 * 256 * Span(12);
  }

  function ReadU32(b: Bytes): (n: u32)
    requires |b| == 4
    ensures ToLe(n, 4) == b
  {
    Widths();
    EncodeDecode(b);
    FromLe(b)
  }

  function ReadU64(b: Bytes): (n: u64)
    requires |b| == 8
    ensures ToLe(n, 8) == b
  {
    Widths();
    EncodeDecode(b);
    FromLe(b)
  }

  function ReadU128(b: Bytes): (n: u128)
    requires |b| == 16
    ensures ToLe(n, 16) == b
  {
    Widths();
    EncodeDecode(b);
    FromLe(b)
  }

  lemma ReadBack32(n: u32)
    ensures ReadU32(ToLe(n, 4)) == n
  {
    Widths();
    DecodeEncode(n, 4);
  }

  lemma ReadBack64(n: u64)
    ensures ReadU64(ToLe(n, 8)) == n
  {
    Widths();
    DecodeEncode(n, 8);
  }

  lemma ReadBack128(n: u128)
    ensures ReadU128(ToLe(n, 16)) == n
  {
    Widths();
    DecodeEncode(n, 16);
  }
}
