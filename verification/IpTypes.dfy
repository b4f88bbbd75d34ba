/** Conversions between Go addresses and VPP addresses (pkg/tools/types/ip_types.go). */
module IpTypes {
  import opened Wrappers
  import opened GoNet

  datatype AddressFamily = ADDRESS_IP4 | ADDRESS_IP6

  /** The 16-byte union of a VPP address; an IPv4 address occupies its first four bytes. */
  type AddressUnion = un: seq<Byte> | |un| == 16 witness ZeroBytes(16)

  datatype Address = Address(af: AddressFamily, un: AddressUnion)

  datatype Prefix = Prefix(address: Address, len: Byte)

  function ZeroBytes(n: nat): (bs: seq<Byte>)
    ensures |bs| == n && AllZero(bs)
  {
    seq(n, i => 0)
  }

  /** Go's `copy` of `src` into a zeroed buffer of `n` bytes. */
  function CopyInto(n: nat, src: seq<Byte>): (buf: seq<Byte>)
    ensures |buf| == n
    ensures forall i :: 0 <= i < n ==> buf[i] == if i < |src| then src[i] else 0
  {
    if |src| >= n then src[..n] else src + ZeroBytes(n - |src|)
  }

  function ToVppAddress(addr: IP): Address {
    match To4(addr)
    case None => Address(ADDRESS_IP6, CopyInto(16, addr))
    case Some(v4) => Address(ADDRESS_IP4, CopyInto(16, v4))
  }

  function FromVppAddress(addr: Address): IP {
    if addr.af == ADDRESS_IP6 then addr.un else addr.un[..4]
  }

  /** Bytes of an address. */
  function AddressWidth(af: AddressFamily): nat {
    if af == ADDRESS_IP6 then 16 else 4
  }

  function ToVppPrefix(prefix: IPNet): Prefix {
    Prefix(ToVppAddress(prefix.ip), MaskOnes(prefix.mask) % 256)
  }

  function FromVppPrefix(prefix: Prefix): IPNet {
    IPNet(FromVppAddress(prefix.address), CIDRMask(prefix.len, 8 * AddressWidth(prefix.address.af)))
  }

  /** An address of one of the two lengths Go gives to addresses. */
  predicate WellFormed(ip: IP) {
    |ip| == 4 || |ip| == 16
  }

  /** A VPP address holding an IPv4-mapped IPv6 address. */
  predicate V4Mapped(addr: Address) {
    addr.af == ADDRESS_IP6 && addr.un[..12] == V4_IN_V6_PREFIX
  }

  /** Only addresses of the address's own family are looked at. */
  predicate IsAddress(p: Prefix, ip: IP) {
    p.address.af == ToVppAddress(ip).af && Equal(FromVppPrefix(p).ip, ip)
  }

  /** `Equal` addresses of any length are one VPP address, and on addresses
      of 4 or 16 bytes `ToVppAddress` separates exactly what `Equal` separates. */
  lemma ToVppAddressRespectsEqual(a: IP, b: IP)
    ensures Equal(a, b) ==> ToVppAddress(a) == ToVppAddress(b)
    ensures WellFormed(a) && WellFormed(b) ==> (Equal(a, b) <==> ToVppAddress(a) == ToVppAddress(b))
  {
    SixteenBytes(a);
    SixteenBytes(b);
    if WellFormed(a) && WellFormed(b) && ToVppAddress(a) == ToVppAddress(b) {
      RoundTripAddress(a);
      RoundTripAddress(b);
      EqualIsTransitive(a, FromVppAddress(ToVppAddress(a)), b);
    }
  }

  lemma SixteenBytes(a: IP)
    ensures |a| == 16 ==> a == a[..12] + a[12..] && CopyInto(16, a) == a
  {
  }

  lemma EqualIsTransitive(a: IP, b: IP, c: IP)
    requires Equal(a, b) && Equal(c, b)
    ensures Equal(a, c)
  {
    SixteenBytes(a);
    SixteenBytes(b);
    SixteenBytes(c);
  }

  /** An address comes back as an equal one exactly when it has a well-formed length. */
  lemma RoundTripAddress(a: IP)
    ensures Equal(FromVppAddress(ToVppAddress(a)), a) <==> WellFormed(a)
    ensures WellFormed(a) ==> Equal(a, FromVppAddress(ToVppAddress(a)))
  {
    SixteenBytes(a);
    match To4(a)
    case Some(v4) =>
      assert CopyInto(16, v4)[..4] == v4;
    case None =>
  }

  /** What `FromVppPrefix` after `ToVppPrefix` returns is the same network exactly when the address is
      well formed and the mask is contiguous and as wide as the address family (section 3.1 of RFC 4632). */
  lemma GoPrefixRoundTrip(p: IPNet)
    ensures var q := FromVppPrefix(ToVppPrefix(p));
            Equal(q.ip, p.ip) && q.mask == p.mask
            <==> WellFormed(p.ip) && MaskLength(p.mask).Some? &&
                 |p.mask| == AddressWidth(ToVppAddress(p.ip).af)
  {
    hide Equal, ToVppAddress, FromVppAddress, MaskLength, CIDRMask;
    RoundTripAddress(p.ip);
    MaskRoundTrip(p.mask, AddressWidth(ToVppAddress(p.ip).af));
  }

  lemma MaskRoundTrip(mask: IPMask, width: nat)
    requires width == 4 || width == 16
    ensures CIDRMask(MaskOnes(mask) % 256, 8 * width) == mask <==> MaskLength(mask).Some? && |mask| == width
  {
    hide *;
    if MaskLength(mask).Some? && |mask| == width {
      ContiguousMaskIsCIDR(mask, width);
    }
    if CIDRMask(MaskOnes(mask) % 256, 8 * width) == mask {
      CIDRMaskIsContiguous(mask, MaskOnes(mask) % 256, width);
    }
  }

  lemma ContiguousMaskIsCIDR(mask: IPMask, width: nat)
    requires width == 4 || width == 16
    requires MaskLength(mask).Some? && |mask| == width
    ensures MaskOnes(mask) <= 8 * width <= 128
    ensures CIDRMask(MaskOnes(mask), 8 * width) == mask
  {
    MaskBytesOfMaskLength(mask);
    assert 8 * width / 8 == width;
  }

  lemma CIDRMaskIsContiguous(mask: IPMask, len: nat, width: nat)
    requires width == 4 || width == 16
    requires CIDRMask(len, 8 * width) == mask
    ensures len <= 8 * width ==> MaskLength(mask).Some? && |mask| == width
    ensures len > 8 * width ==> MaskOnes(mask) == 0
  {
    if len <= 8 * width {
      MaskLengthOfMaskBytes(len, width);
      assert 8 * width / 8 == width;
    }
  }

  /** The opposite composition is the identity exactly on prefixes in range that are not IPv4-mapped
      and carry nothing beyond the four bytes of an IPv4 address. */
  lemma VppPrefixRoundTrip(p: Prefix)
    ensures ToVppPrefix(FromVppPrefix(p)) == p
            <==> p.len <= 8 * AddressWidth(p.address.af) && !V4Mapped(p.address) &&
                 (p.address.af == ADDRESS_IP4 ==> AllZero(p.address.un[4..]))
  {
    hide MaskBytes, MaskLength, CIDRMask;
    LengthRoundTrip(p.len, AddressWidth(p.address.af));
    VppAddressRoundTrip(p.address);
  }

  lemma LengthRoundTrip(len: Byte, width: nat)
    requires width == 4 || width == 16
    ensures MaskOnes(CIDRMask(len, 8 * width)) == if len <= 8 * width then len else 0
  {
    if len <= 8 * width {
      MaskLengthOfMaskBytes(len, width);
      assert 8 * width / 8 == width;
    }
  }

  lemma VppAddressRoundTrip(a: Address)
    ensures ToVppAddress(FromVppAddress(a)) == a
            <==> !V4Mapped(a) && (a.af == ADDRESS_IP4 ==> AllZero(a.un[4..]))
  {
    var r := ToVppAddress(FromVppAddress(a));
    SixteenBytes(a.un);
    if a.af == ADDRESS_IP4 {
      if r == a {
        assert forall i :: 0 <= i < 12 ==> a.un[4..][i] == r.un[i + 4];
      }
      if AllZero(a.un[4..]) {
        assert forall i :: 4 <= i < 16 ==> a.un[i] == a.un[4..][i - 4];
        assert r.un == a.un;
      }
    }
  }
}
