/**
 The padding of `sha256` in build_support/vendor_patches.rs, against section 5.1.1 of FIPS 180-4.
 */
module Padding {

  type Byte = x: int | 0 <= x < 256

  const WORD64: nat := 0x1_0000_0000_0000_0000

  /** The number of zero bytes between the marker and the length. */
  function ZeroCount(length: nat): (k: nat)
    ensures k < 64 && (length + 1 + k) % 64 == 56
  {
    (119 - length % 64) % 64
  }

  function Zeros(k: nat): (r: seq<Byte>)
    ensures |r| == k && forall i :: 0 <= i < k ==> r[i] == 0
  {
    seq(k, _ => 0)
  }

  /** The last `k` bytes of `n`, the highest first. */
  function BigEndian(n: nat, k: nat): (r: seq<Byte>)
    ensures |r| == k
  {
    if k == 0 then [] else BigEndian(n / 256, k - 1) + [n % 256]
  }

  /** The length in bits, in a wrapping 64-bit word. */
  function LengthBytes(length: nat): (r: seq<Byte>)
    ensures |r| == 8
  {
    BigEndian(8 * length % WORD64, 8)
  }

  function Pad(bytes: seq<Byte>): (r: seq<Byte>)
  {
    bytes + [0x80] + Zeros(ZeroCount(|bytes|)) + LengthBytes(|bytes|)
  }

  /** The padding loop; it ends because the wanted remainder is less than 64 bytes away. */
  method PadMessage(bytes: seq<Byte>) returns (padded: seq<Byte>)
    ensures padded == Pad(bytes)
  {
    var bitLength := 8 * |bytes| % WORD64;
    padded := bytes + [0x80];
    ghost var k := 0;
    while |padded| % 64 != 56
      invariant 0 <= k <= ZeroCount(|bytes|)
      invariant padded == bytes + [0x80] + Zeros(k)
      decreases ZeroCount(|bytes|) - k
    {
      assert Zeros(k) + [0] == Zeros(k + 1);
      padded := padded + [0];
      k := k + 1;
    }
    Fewest(|bytes|, k);
    padded := padded + BigEndian(bitLength, 8);
  }

  /** The padding is minimal: fewer zeros never leave room for the length in the last block. */
  lemma {:induction false} Fewest(length: nat, k: nat)
    requires (length + 1 + k) % 64 == 56
    ensures ZeroCount(length) <= k
  {
    var z := ZeroCount(length);
    var q, r := (length + 1 + k) / 64, (length + 1 + z) / 64;
    assert length + 1 + k == 64 * q + 56 && length + 1 + z == 64 * r + 56;
    assert k - z == 64 * (q - r);
  }

  /** A whole number of blocks, the last of which holds the length. */
  lemma {:induction false} PaddedLength(bytes: seq<Byte>)
    ensures |Pad(bytes)| % 64 == 0
    ensures |bytes| + 9 <= |Pad(bytes)| < |bytes| + 73
    ensures Pad(bytes)[..|bytes|] == bytes
    ensures Pad(bytes)[|Pad(bytes)| - 8..] == LengthBytes(|bytes|)
  {
    var front, z, length := bytes + [0x80], Zeros(ZeroCount(|bytes|)), LengthBytes(|bytes|);
    Blocks(|bytes|, |z|);
    assert Pad(bytes) == front + z + length;
  }

  lemma {:induction false} Blocks(length: nat, k: nat)
    requires (length + 1 + k) % 64 == 56
    ensures (length + 1 + k + 8) % 64 == 0
  {
  }

  // --------------------------------------------------------- the length field

  function Power(k: nat): (r: nat)
    ensures r > 0
  {
    if k == 0 then 1 else 256 * Power(k - 1)
  }

  lemma {:induction false} BigEndianInjective(m: nat, n: nat, k: nat)
    requires BigEndian(m, k) == BigEndian(n, k)
    requires m < Power(k) && n < Power(k)
    ensures m == n
  {
    if k > 0 {
      var a, b := BigEndian(m, k), BigEndian(n, k);
      assert a[..k - 1] == BigEndian(m / 256, k - 1) && b[..k - 1] == BigEndian(n / 256, k - 1);
      assert a[k - 1] == m % 256 && b[k - 1] == n % 256;
      BigEndianInjective(m / 256, n / 256, k - 1);
    }
  }

  lemma {:induction false} PowerOfEight()
    ensures Power(8) == WORD64
  {
    assert Power(4) == 0x1_0000_0000;
    assert Power(6) == 0x1_0000_0000_0000;
  }

  lemma {:induction false} LengthField(m: nat, n: nat)
    requires LengthBytes(m) == LengthBytes(n)
    ensures 8 * m % WORD64 == 8 * n % WORD64
  {
    PowerOfEight();
    BigEndianInjective(8 * m % WORD64, 8 * n % WORD64, 8);
  }

  lemma {:induction false} NearLengths(m: nat, n: nat)
    requires 8 * m % WORD64 == 8 * n % WORD64 && m < n + 64
    ensures m <= n
  {
    var d := 8 * m - 8 * n;
    assert d % WORD64 == 0;
  }

  /** No two messages, of whatever length, have the same padding. */
  lemma {:induction false} PadInjective(a: seq<Byte>, b: seq<Byte>)
    requires Pad(a) == Pad(b)
    ensures a == b
  {
    PaddedLength(a);
    PaddedLength(b);
    LengthField(|a|, |b|);
    NearLengths(|a|, |b|);
    NearLengths(|b|, |a|);
  }

  lemma {:induction false} SmallLengths(m: nat, n: nat)
    requires LengthBytes(m) == LengthBytes(n) && m < WORD64 / 8 && n < WORD64 / 8
    ensures m == n
  {
    LengthField(m, n);
    Fits(8 * m);
    Fits(8 * n);
  }

  lemma {:induction false} Fits(x: nat)
    requires x < WORD64
    ensures x % WORD64 == x
  {
  }

  /** Below the length that the field can hold, no padded message ends in another one. */
  lemma {:induction false} PadSuffixFree(a: seq<Byte>, b: seq<Byte>, front: seq<Byte>)
    requires |a| < WORD64 / 8 && |b| < WORD64 / 8
    requires Pad(a) == front + Pad(b)
    ensures front == [] && a == b
  {
    PaddedLength(a);
    PaddedLength(b);
    SameEnd(front, Pad(b), 8);
    SmallLengths(|a|, |b|);
    SamePadLength(a, b);
    assert front == [];
    assert front + Pad(b) == Pad(b);
    PadInjective(a, b);
  }

  lemma {:induction false} SamePadLength(a: seq<Byte>, b: seq<Byte>)
    requires |a| == |b|
    ensures |Pad(a)| == |Pad(b)|
  {
  }

  lemma {:induction false} SameEnd(front: seq<Byte>, s: seq<Byte>, k: nat)
    requires k <= |s|
    ensures (front + s)[|front + s| - k..] == s[|s| - k..]
  {
  }
}
