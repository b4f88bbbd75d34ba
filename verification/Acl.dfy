/** Access control lists: what a list of rules does to packets, and the mirrored list for the egress
    direction (pkg/networkservice/acl/common.go). */
module Acl {
  import opened Wrappers
  import opened GoNet
  import opened IpTypes

  type Port = x: int | 0 <= x < 0x1_0000

  datatype RuleAction = DENY | PERMIT | PERMIT_REFLECT

  const TCP: Byte := 6
  const UDP: Byte := 17

  /** For ICMP the two ranges hold types and codes instead of ports. Protocol 0 stands for any. */
  datatype Rule = Rule(action: RuleAction, proto: Byte, src: Prefix, dst: Prefix,
                       srcFirst: Port, srcLast: Port, dstFirst: Port, dstLast: Port)

  /** `srcPort` and `dstPort` are type and code in an ICMP packet. */
  datatype Packet = Packet(src: Address, dst: Address, proto: Byte, srcPort: Port, dstPort: Port)

  // ---- Meaning of rules ----

  /** The weight of the bits of a byte that a mask of `n` leading ones leaves out. */
  function Granularity(n: nat): int
    requires n <= 8
    ensures Granularity(n) > 0
  {
    [256, 128, 64, 32, 16, 8, 4, 2, 1][n]
  }

  predicate EqualBits(a: seq<Byte>, b: seq<Byte>, n: nat)
    requires |a| == |b| && n <= 8 * |a|
  {
    if n == 0 then true
    else if n < 8 then a[0] / Granularity(n) == b[0] / Granularity(n)
    else a[0] == b[0] && EqualBits(a[1..], b[1..], n - 8)
  }

  predicate InPrefix(a: Address, p: Prefix) {
    a.af == p.address.af && p.len <= 8 * AddressWidth(a.af) && EqualBits(a.un, p.address.un, p.len)
  }

  predicate Matches(r: Rule, p: Packet) {
    && InPrefix(p.src, r.src) && InPrefix(p.dst, r.dst)
    && (r.proto == 0 ||
        (r.proto == p.proto && r.srcFirst <= p.srcPort <= r.srcLast && r.dstFirst <= p.dstPort <= r.dstLast))
  }

  /** The first matching rule decides. */
  function FirstMatch(rules: seq<Rule>, p: Packet): Option<RuleAction> {
    if rules == [] then None
    else if Matches(rules[0], p) then Some(rules[0].action)
    else FirstMatch(rules[1..], p)
  }

  function Concat(lists: seq<seq<Rule>>): seq<Rule> {
    if lists == [] then [] else lists[0] + Concat(lists[1..])
  }

  /** With no list applied everything is permitted, otherwise what no rule matches is denied. */
  predicate Permits(lists: seq<seq<Rule>>, p: Packet) {
    lists == [] || (FirstMatch(Concat(lists), p).Some? && FirstMatch(Concat(lists), p) != Some(DENY))
  }

  lemma {:induction false} WholeBytesEqual(a: seq<Byte>, b: seq<Byte>, k: nat)
    requires |a| == |b| && k <= |a|
    ensures EqualBits(a, b, 8 * k) <==> a[..k] == b[..k]
  {
    if k > 0 {
      WholeBytesEqual(a[1..], b[1..], k - 1);
      assert a[..k] == [a[0]] + a[1..][..k - 1];
      assert b[..k] == [b[0]] + b[1..][..k - 1];
    }
  }

  lemma Granularities(n: nat)
    requires 0 < n < 8
    ensures Granularity(n) in {1, 2, 4, 8, 16, 32, 64, 128}
    ensures Granularity(n) == Power2(7 - (n - 1)) && Granularity(n - 1) == 2 * Granularity(n)
  {
    Powers();
    hide Power2;
  }

  lemma SameTop(x: int, y: int, a: int, b: int)
    requires a == 2 * x + a % 2 && b == 2 * y + b % 2
    ensures a == b <==> x == y && a % 2 == b % 2
  {
  }

  lemma TopStep(a: Byte, b: Byte, n: nat)
    requires 0 < n < 8
    ensures a / Granularity(n) == b / Granularity(n) <==>
            a / Granularity(n - 1) == b / Granularity(n - 1) && (BitOf(a, n - 1) <==> BitOf(b, n - 1))
  {
    Granularities(n);
    hide Power2, Granularity;
    Halve(a, Granularity(n));
    Halve(b, Granularity(n));
    SameTop(a / Granularity(n - 1), b / Granularity(n - 1), a / Granularity(n), b / Granularity(n));
  }

  lemma {:induction false} TopBits(a: Byte, b: Byte, n: nat)
    requires n < 8
    ensures a / Granularity(n) == b / Granularity(n) <==> forall k :: 0 <= k < n ==> (BitOf(a, k) <==> BitOf(b, k))
  {
    if n > 0 {
      TopBits(a, b, n - 1);
      TopStep(a, b, n);
      hide BitOf, Granularity;
    }
  }

  lemma SameByte(x: Byte, y: Byte)
    ensures x == y <==> forall k :: 0 <= k < 8 ==> (BitOf(x, k) <==> BitOf(y, k))
  {
    ByteOfBits(x);
    ByteOfBits(y);
    hide BitOf;
  }

  lemma FirstBits(a: seq<Byte>, b: seq<Byte>, n: nat)
    requires |a| == |b| > 0 && n <= 8
    ensures (forall k :: 0 <= k < n ==> (Bit(a, k) <==> Bit(b, k))) <==> (forall k :: 0 <= k < n ==> (BitOf(a[0], k) <==> BitOf(b[0], k)))
  {
    FirstByte(a);
    FirstByte(b);
    hide Bit, BitOf;
  }

  lemma {:induction false} EqualBitsIsBits(a: seq<Byte>, b: seq<Byte>, n: nat)
    requires |a| == |b| && n <= 8 * |a|
    ensures EqualBits(a, b, n) <==> forall k :: 0 <= k < n ==> (Bit(a, k) <==> Bit(b, k))
  {
    hide Bit, BitOf, Granularity;
    if 0 < n < 8 {
      FirstBits(a, b, n);
      TopBits(a[0], b[0], n);
    } else if n >= 8 {
      FirstBits(a, b, 8);
      SameByte(a[0], b[0]);
      EqualBitsIsBits(a[1..], b[1..], n - 8);
      BitsFromSecond(a, b, n);
    }
  }

  lemma BitsFromSecond(a: seq<Byte>, b: seq<Byte>, n: nat)
    requires |a| == |b| && 8 <= n <= 8 * |a|
    ensures (forall k :: 0 <= k < n ==> (Bit(a, k) <==> Bit(b, k))) <==>
            (forall k :: 0 <= k < 8 ==> (Bit(a, k) <==> Bit(b, k))) &&
            forall k :: 0 <= k < n - 8 ==> (Bit(a[1..], k) <==> Bit(b[1..], k))
  {
    FirstByte(a);
    FirstByte(b);
    hide Bit, BitOf;
    if forall k :: 0 <= k < n ==> (Bit(a, k) <==> Bit(b, k)) {
      forall k | 0 <= k < n - 8
        ensures Bit(a[1..], k) <==> Bit(b[1..], k)
      {
        assert Bit(a, k + 8) <==> Bit(b, k + 8);
      }
    }
    if forall k :: 0 <= k < n - 8 ==> (Bit(a[1..], k) <==> Bit(b[1..], k)) {
      forall k | 8 <= k < n && (forall j :: 0 <= j < 8 ==> (Bit(a, j) <==> Bit(b, j)))
        ensures Bit(a, k) <==> Bit(b, k)
      {
        assert Bit(a, (k - 8) + 8) <==> Bit(a[1..], k - 8);
        assert Bit(b, (k - 8) + 8) <==> Bit(b[1..], k - 8);
      }
    }
  }

  /** An address is in a prefix exactly if it is of its family and agrees with it bit by bit up to its length. */
  lemma InPrefixIsBits(a: Address, p: Prefix)
    ensures InPrefix(a, p) <==>
            && a.af == p.address.af && p.len <= (if a.af == ADDRESS_IP4 then 32 else 128)
            && forall k :: 0 <= k < p.len ==> (Bit(a.un, k) <==> Bit(p.address.un, k))
  {
    if p.len <= 8 * |a.un| { EqualBitsIsBits(a.un, p.address.un, p.len); }
    hide Bit, EqualBits;
  }

  // ---- Mirroring ----

  function Mirror(r: Rule): Rule {
    Rule(r.action, r.proto, r.dst, r.src, r.dstFirst, r.dstLast, r.srcFirst, r.srcLast)
  }

  function Mirrored(rules: seq<Rule>): seq<Rule> {
    seq(|rules|, i requires 0 <= i < |rules| => Mirror(rules[i]))
  }

  /** The packet of the opposite direction: addresses change places, and so do ports, but not ICMP type and code. */
  function Reverse(p: Packet): Packet {
    if p.proto == TCP || p.proto == UDP then Packet(p.dst, p.src, p.proto, p.dstPort, p.srcPort)
    else Packet(p.dst, p.src, p.proto, p.srcPort, p.dstPort)
  }

  predicate SwapsFields(p: Packet) {
    p.proto == TCP || p.proto == UDP || p.proto == 0 || p.srcPort == p.dstPort
  }

  lemma {:induction false} MirroredDecision(rules: seq<Rule>, p: Packet)
    requires SwapsFields(p)
    ensures FirstMatch(Mirrored(rules), Reverse(p)) == FirstMatch(rules, p)
  {
    if rules != [] {
      MirroredDecision(rules[1..], p);
      assert Mirrored(rules)[1..] == Mirrored(rules[1..]);
    }
  }

  /** The egress list treats the reversed packet as the ingress list treats the packet, for every rule list, exactly for
      TCP and UDP packets, and those others whose two fields no rule looks at or happen to be equal. */
  lemma MirrorIsExact(p: Packet)
    ensures (forall rules :: FirstMatch(Mirrored(rules), Reverse(p)) == FirstMatch(rules, p)) <==> SwapsFields(p)
  {
    if SwapsFields(p) {
      forall rules
        ensures FirstMatch(Mirrored(rules), Reverse(p)) == FirstMatch(rules, p)
      {
        MirroredDecision(rules, p);
      }
    } else {
      var r := Rule(PERMIT, p.proto, Prefix(p.src, 0), Prefix(p.dst, 0), p.srcPort, p.srcPort, p.dstPort, p.dstPort);
      assert FirstMatch([r], p) == Some(PERMIT);
      assert Mirrored([r]) == [Mirror(r)];
      assert FirstMatch([Mirror(r)], Reverse(p)) == None;
    }
  }

  lemma MirrorTwice(rules: seq<Rule>)
    ensures Mirrored(Mirrored(rules)) == rules
  {
  }

  // ---- The program ----

  datatype AclAddReplace = AclAddReplace(aclIndex: nat, tag: string, count: nat, r: array<Rule>)

  /** The rules are mirrored in place, in a copy: the caller's rules stay as they are. */
  method AclAdd(tag: string, egress: bool, aRules: array<Rule>) returns (acl: AclAddReplace)
    ensures fresh(acl.r) && acl.aclIndex == 0xFFFF_FFFF && acl.tag == tag && acl.count == aRules.Length
    ensures acl.r[..] == if egress then Mirrored(aRules[..]) else aRules[..]
  {
    var r := new Rule[aRules.Length](i requires 0 <= i < aRules.Length reads aRules => aRules[i]);
    assert r[..] == aRules[..];
    acl := AclAddReplace(0xFFFF_FFFF, tag, r.Length, r);
    if egress {
      for i := 0 to r.Length
        invariant forall j :: 0 <= j < i ==> r[j] == Mirror(aRules[j])
        invariant forall j :: i <= j < r.Length ==> r[j] == aRules[j]
      {
        r[i] := r[i].(src := r[i].dst, dst := r[i].src);
        r[i] := r[i].(srcFirst := r[i].dstFirst, dstFirst := r[i].srcFirst);
        r[i] := r[i].(srcLast := r[i].dstLast, dstLast := r[i].srcLast);
      }
      assert r[..] == Mirrored(aRules[..]);
    }
  }
}
