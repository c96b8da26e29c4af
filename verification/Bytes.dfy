/** Bytes and the little-endian image of the fixed-width integers that are copied into message bodies. */
module Bytes {
  newtype Byte = b: int | 0 <= b < 256

  const U16_LIMIT := 0x1_0000
  const U32_LIMIT := 0x1_0000_0000
  const U64_LIMIT := 0x1_0000_0000_0000_0000

  datatype Option<+T> = None | Some(value: T)

  function ByteOf(n: nat): Byte {
    (n % 256) as Byte
  }

  function ValueOf(b: Byte): nat {
    b as nat
  }

  /** The value a byte carries is the number it was made from, modulo 256. */
  lemma ByteRoundTrip(n: nat)
    ensures ValueOf(ByteOf(n)) == n % 256
  {
  }

  function Pow256(k: nat): nat {
    if k == 0 then 1 else 256 * Pow256(k - 1)
  }

  /** The `width` low-order bytes of `n`, least significant first. */
  function LeBytes(n: nat, width: nat): (bytes: seq<Byte>)
    ensures |bytes| == width
    decreases width, n
  {
    if width == 0 then [] else [ByteOf(n)] + LeBytes(n / 256, width - 1)
  }

  function LeValue(bytes: seq<Byte>): nat {
    if bytes == [] then 0 else ValueOf(bytes[0]) + 256 * LeValue(bytes[1..])
  }

  lemma {:induction false} LeRoundTrip(n: nat, width: nat)
    requires n < Pow256(width)
    ensures LeValue(LeBytes(n, width)) == n
    decreases width, n
  {
    if width > 0 {
      assert n / 256 < Pow256(width - 1);
      LeRoundTrip(n / 256, width - 1);
      assert LeBytes(n, width)[1..] == LeBytes(n / 256, width - 1);
      ByteRoundTrip(n);
    }
  }

  lemma U32RoundTrip(n: nat)
    requires n < U32_LIMIT
    ensures LeValue(LeBytes(n, 4)) == n
  {
    assert Pow256(4) == U32_LIMIT;
    LeRoundTrip(n, 4);
  }

  lemma U64RoundTrip(n: nat)
    requires n < U64_LIMIT
    ensures LeValue(LeBytes(n, 8)) == n
  {
    assert Pow256(4) == U32_LIMIT;
    assert Pow256(8) == U64_LIMIT;
    LeRoundTrip(n, 8);
  }

  /** Byte `k` of an integer is its digit `k` to the base 256: the least significant byte comes first. */
  lemma {:induction false} LeBytesAt(n: nat, width: nat, k: nat)
    requires k < width
    ensures Pow256(k) > 0 && ValueOf(LeBytes(n, width)[k]) == n / Pow256(k) % 256
    decreases k
  {
    ByteRoundTrip(n);
    if k > 0 {
      LeBytesAt(n / 256, width - 1, k - 1);
      DivideTwice(n, Pow256(k - 1));
    }
  }

  lemma DivideTwice(n: nat, m: nat)
    requires m > 0
    ensures n / (256 * m) == n / 256 / m
  {
    var q, r := n / 256 / m, n / 256 % m;
    var p := q * m;
    assert n / 256 == p + r;
    assert q * (256 * m) == 256 * p;
    QuotientIs(n, 256 * m, q, 256 * r + n % 256);
  }

  lemma QuotientIs(n: nat, d: nat, q: nat, r: nat)
    requires d > 0 && n == q * d + r && r < d
    ensures n / d == q
  {
    var e := n / d - q;
    assert e * d == n / d * d - q * d;
    if e > 0 {
      Scaled(1, e, d);
    } else if e < 0 {
      Scaled(1, -e, d);
    }
  }

  lemma Scaled(a: nat, b: nat, d: nat)
    requires a <= b
    ensures a * d <= b * d
  {
  }
}
