/** The parts of Go's `net` package the address code rests on: `net.IP`, `net.IPMask` and
    their comparisons. A nil slice and an empty slice are the same value here. */
module GoNet {
  import opened Wrappers

  type Byte = x: int | 0 <= x < 256

  type IP = seq<Byte>
  type IPMask = seq<Byte>

  datatype IPNet = IPNet(ip: IP, mask: IPMask)

  const V4_IN_V6_PREFIX: seq<Byte> := [0, 0, 0, 0, 0, 0, 0, 0, 0, 0, 255, 255]

  /** The 4-byte form of `ip`, if it has one (IPv4-mapped form: section 2.5.5.2 of RFC 4291). */
  function To4(ip: IP): Option<IP> {
    if |ip| == 4 then Some(ip)
    else if |ip| == 16 && ip[..12] == V4_IN_V6_PREFIX then Some(ip[12..])
    else None
  }

  predicate Equal(a: IP, b: IP) {
    if |a| == |b| then a == b
    else if |a| == 4 && |b| == 16 then b[..12] == V4_IN_V6_PREFIX && b[12..] == a
    else if |a| == 16 && |b| == 4 then a[..12] == V4_IN_V6_PREFIX && a[12..] == b
    else false
  }

  /** The byte whose `n` leading bits are set. */
  function MaskByte(n: nat): Byte
    requires n <= 8
  {
    [0, 128, 192, 224, 240, 248, 252, 254, 255][n]
  }

  function LeadingOnes(b: Byte): (n: nat)
    ensures n <= 8
    ensures MaskByte(n) <= b && (n < 8 ==> b < MaskByte(n + 1))
  {
    if b < 128 then 0 else if b < 192 then 1 else if b < 224 then 2
    else if b < 240 then 3 else if b < 248 then 4 else if b < 252 then 5
    else if b < 254 then 6 else if b < 255 then 7 else 8
  }

  predicate AllZero(bs: seq<Byte>) {
    forall i :: 0 <= i < |bs| ==> bs[i] == 0
  }

  /** Number of leading ones of a contiguous mask, None for any other mask. */
  function MaskLength(mask: IPMask): Option<nat> {
    if mask == [] then Some(0)
    else if mask[0] == 255 then
      match MaskLength(mask[1..])
      case Some(n) => Some(8 + n)
      case None => None
    else if mask[0] == MaskByte(LeadingOnes(mask[0])) && AllZero(mask[1..]) then Some(LeadingOnes(mask[0]))
    else None
  }

  /** First result of `IPMask.Size`: 0 for a mask that is not contiguous. */
  function MaskOnes(mask: IPMask): nat {
    match MaskLength(mask)
    case Some(n) => n
    case None => 0
  }

  function MaskBytes(ones: nat, width: nat): IPMask {
    if width == 0 then []
    else if ones >= 8 then [255] + MaskBytes(ones - 8, width - 1)
    else [MaskByte(ones)] + MaskBytes(0, width - 1)
  }

  /** The mask of `ones` ones in `bits` bits, nil when there is none. */
  function CIDRMask(ones: nat, bits: nat): IPMask {
    if bits != 32 && bits != 128 then []
    else if ones > bits then []
    else MaskBytes(ones, bits / 8)
  }

  lemma {:induction false} ZeroMask(width: nat)
    ensures |MaskBytes(0, width)| == width && AllZero(MaskBytes(0, width))
  {
    if width > 0 { ZeroMask(width - 1); }
  }

  lemma {:induction false} ZeroMaskOnly(mask: IPMask)
    requires AllZero(mask)
    ensures mask == MaskBytes(0, |mask|)
  {
    ZeroMask(|mask|);
  }

  /** The length of the mask built for `ones` is `ones` again. */
  lemma {:induction false} MaskLengthOfMaskBytes(ones: nat, width: nat)
    requires ones <= 8 * width
    ensures |MaskBytes(ones, width)| == width
    ensures MaskLength(MaskBytes(ones, width)) == Some(ones)
  {
    var m := MaskBytes(ones, width);
    if width == 0 {
    } else if ones >= 8 {
      MaskLengthOfMaskBytes(ones - 8, width - 1);
      assert m[1..] == MaskBytes(ones - 8, width - 1);
    } else {
      ZeroMask(width - 1);
      assert m[1..] == MaskBytes(0, width - 1);
    }
  }

  /** A contiguous mask is the one built from its length. */
  lemma {:induction false} MaskBytesOfMaskLength(mask: IPMask)
    requires MaskLength(mask).Some?
    ensures MaskLength(mask).value <= 8 * |mask|
    ensures mask == MaskBytes(MaskLength(mask).value, |mask|)
  {
    if mask == [] {
    } else if mask[0] == 255 {
      MaskBytesOfMaskLength(mask[1..]);
      assert mask == [255] + mask[1..];
    } else {
      ZeroMaskOnly(mask[1..]);
      assert mask == [mask[0]] + mask[1..];
    }
  }

  // ---- Bit by bit ----

  function Power2(n: nat): (p: nat)
    ensures p > 0
  {
    if n == 0 then 1 else 2 * Power2(n - 1)
  }

  /** Bits are counted from the most significant one of the first byte. */
  predicate Bit(bs: seq<Byte>, k: nat)
    requires k < 8 * |bs|
  {
    bs[k / 8] / Power2(7 - k % 8) % 2 == 1
  }

  predicate BitOf(b: Byte, k: nat)
    requires k < 8
  {
    b / Power2(7 - k) % 2 == 1
  }

  lemma Powers()
    ensures Power2(0) == 1 && Power2(1) == 2 && Power2(2) == 4 && Power2(3) == 8
    ensures Power2(4) == 16 && Power2(5) == 32 && Power2(6) == 64 && Power2(7) == 128
  {
    assert Power2(3) == 8 && Power2(6) == 64;
  }

  function Digit(b: Byte, k: nat): nat
    requires k < 8
  {
    if BitOf(b, k) then 1 else 0
  }

  /** A byte is the sum of its bits. */
  lemma ByteOfBits(b: Byte)
    ensures b == 128 * Digit(b, 0) + 64 * Digit(b, 1) + 32 * Digit(b, 2) + 16 * Digit(b, 3) +
                 8 * Digit(b, 4) + 4 * Digit(b, 5) + 2 * Digit(b, 6) + Digit(b, 7)
  {
    Powers();
    Halve(b, 1);
    Halve(b, 2);
    Halve(b, 4);
    Halve(b, 8);
    Halve(b, 16);
    Halve(b, 32);
    Halve(b, 64);
    hide *;
    DigitsAre(b);
  }

  lemma Halve(b: Byte, p: nat)
    requires p in {1, 2, 4, 8, 16, 32, 64, 128}
    ensures b / p == 2 * (b / (2 * p)) + b / p % 2
  {
  }

  lemma DigitsAre(b: Byte)
    ensures Digit(b, 0) == b / 128 && Digit(b, 1) == b / 64 % 2 && Digit(b, 2) == b / 32 % 2 && Digit(b, 3) == b / 16 % 2
    ensures Digit(b, 4) == b / 8 % 2 && Digit(b, 5) == b / 4 % 2 && Digit(b, 6) == b / 2 % 2 && Digit(b, 7) == b % 2
  {
    Powers();
    hide Power2;
  }

  ghost predicate OnesFirst(b: Byte, n: nat) {
    n <= 8 && forall k :: 0 <= k < 8 ==> (BitOf(b, k) <==> k < n)
  }

  /** A byte has its first `n` bits set and no other exactly if it is the mask byte of `n`. */
  lemma MaskByteIsBits(b: Byte, n: nat)
    requires n <= 8
    ensures b == MaskByte(n) <==> OnesFirst(b, n)
    ensures b == MaskByte(n) ==> LeadingOnes(b) == n
  {
    ByteOfBits(b);
    MaskByteBits(n);
  }

  lemma MaskByteBits(n: nat)
    requires n <= 8
    ensures OnesFirst(MaskByte(n), n) && LeadingOnes(MaskByte(n)) == n
  {
    Powers();
    hide Power2;
    var b := MaskByte(n);
    assert BitOf(b, 0) == (0 < n) && BitOf(b, 1) == (1 < n) && BitOf(b, 2) == (2 < n) && BitOf(b, 3) == (3 < n);
    assert BitOf(b, 4) == (4 < n) && BitOf(b, 5) == (5 < n) && BitOf(b, 6) == (6 < n) && BitOf(b, 7) == (7 < n);
  }

  /** The first `n` bits are set and no other. */
  ghost predicate Contiguous(bs: seq<Byte>, n: nat) {
    n <= 8 * |bs| && forall k :: 0 <= k < 8 * |bs| ==> (Bit(bs, k) <==> k < n)
  }

  lemma FirstByte(bs: seq<Byte>)
    requires bs != []
    ensures forall k :: 0 <= k < 8 ==> (Bit(bs, k) <==> BitOf(bs[0], k))
    ensures forall k :: 0 <= k < 8 * |bs[1..]| ==> (Bit(bs, k + 8) <==> Bit(bs[1..], k))
  {
    hide Power2;
    forall k | 0 <= k < 8 * |bs[1..]|
      ensures Bit(bs, k + 8) <==> Bit(bs[1..], k)
    {
      assert (k + 8) / 8 == k / 8 + 1 && (k + 8) % 8 == k % 8;
      assert bs[1..][k / 8] == bs[k / 8 + 1];
    }
  }

  lemma ContiguousFirst(bs: seq<Byte>, n: nat)
    requires bs != []
    ensures Contiguous(bs, n) <==>
            n <= 8 * |bs| && OnesFirst(bs[0], if n < 8 then n else 8) && Contiguous(bs[1..], if n < 8 then 0 else n - 8)
  {
    FirstByte(bs);
    hide Bit, BitOf;
    if OnesFirst(bs[0], if n < 8 then n else 8) && Contiguous(bs[1..], if n < 8 then 0 else n - 8) {
      forall k | 0 <= k < 8 * |bs|
        ensures Bit(bs, k) <==> k < n
      {
        if k >= 8 { assert Bit(bs, (k - 8) + 8) <==> Bit(bs[1..], k - 8); }
      }
    }
    if Contiguous(bs, n) {
      forall k | 0 <= k < 8 * |bs[1..]|
        ensures Bit(bs[1..], k) <==> k < if n < 8 then 0 else n - 8
      {
        assert Bit(bs, k + 8) <==> Bit(bs[1..], k);
      }
    }
  }

  lemma {:induction false} AllZeroIsBits(bs: seq<Byte>)
    ensures AllZero(bs) <==> Contiguous(bs, 0)
  {
    if bs != [] {
      AllZeroIsBits(bs[1..]);
      ContiguousFirst(bs, 0);
      MaskByteIsBits(bs[0], 0);
      hide Contiguous, OnesFirst;
      assert AllZero(bs) <==> bs[0] == 0 && AllZero(bs[1..]) by { assert bs == [bs[0]] + bs[1..]; }
    }
  }

  /** A mask has the length `n` exactly if its first `n` bits are set and no other. */
  lemma {:induction false} MaskLengthIsBits(mask: IPMask, n: nat)
    ensures MaskLength(mask) == Some(n) <==> Contiguous(mask, n)
  {
    if mask != [] {
      ContiguousFirst(mask, n);
      AllZeroIsBits(mask[1..]);
      MaskByteIsBits(mask[0], if n < 8 then n else 8);
      MaskByteIsBits(mask[0], LeadingOnes(mask[0]));
      if n >= 8 { MaskLengthIsBits(mask[1..], n - 8); } else { MaskLengthIsBits(mask[1..], 0); }
      hide Contiguous, OnesFirst, AllZero;
    }
  }

  /** `CIDRMask` gives a mask of 4 or 16 bytes with the first `ones` bits set and no other, or nothing. */
  lemma CIDRMaskIsBits(ones: nat, bits: nat)
    ensures var mask := CIDRMask(ones, bits);
            if (bits == 32 || bits == 128) && ones <= bits then |mask| == bits / 8 && Contiguous(mask, ones) else mask == []
  {
    hide Contiguous;
    if (bits == 32 || bits == 128) && ones <= bits {
      MaskLengthOfMaskBytes(ones, bits / 8);
      MaskLengthIsBits(CIDRMask(ones, bits), ones);
    }
  }
}
