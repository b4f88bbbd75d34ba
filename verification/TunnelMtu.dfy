/** The MTU of connections that run through tunnels (the mtu folders of vxlan, wireguard and ipsec under
    pkg/networkservice/mechanisms). A value of 0 means that none is set. */
module TunnelMtu {
  import opened Wrappers
  import opened GoNet
  import opened IpTypes
  import opened Vpp

  type Uint32 = x: int | 0 <= x < 0x1_0000_0000

  datatype Kind = VXLAN | WIREGUARD | IPSEC

  datatype Mechanism = Mechanism(kind: Option<Kind>, mtu: Uint32)

  datatype Link = Link(mtu: Uint32, addresses: seq<Prefix>)

  /** Bytes a tunnel adds to a packet. */
  function Overhead(kind: Kind, isV6: bool): Uint32 {
    match kind
    case VXLAN => if !isV6 then 54 else 74
    case WIREGUARD => if !isV6 then 60 else 80
    case IPSEC => if !isV6 then 81 else 101
  }

  function Sub32(a: Uint32, b: Uint32): Uint32 {
    (a - b) % 0x1_0000_0000
  }

  predicate Carries(link: Link, tunnelIP: IP) {
    link.mtu != 0 && exists k :: 0 <= k < |link.addresses| && IsAddress(link.addresses[k], tunnelIP)
  }

  /** The first link with an MTU and the tunnel's address. */
  function FindLink(links: seq<Link>, tunnelIP: IP): Option<Uint32> {
    if links == [] then None
    else if Carries(links[0], tunnelIP) then Some(links[0].mtu)
    else FindLink(links[1..], tunnelIP)
  }

  function TunnelMtuOf(kind: Kind, linkMtu: Uint32, isV6: bool): Uint32 {
    Sub32(linkMtu, Overhead(kind, isV6))
  }

  /** The scan of the links: the addresses of each are asked for in turn, and the first failure ends it. */
  function AfterScan(o: Oracle, calls: nat, links: seq<Link>, tunnelIP: IP): (nat, Option<Uint32>)
    decreases |links|
  {
    if links == [] then (calls, None)
    else if !o(calls).ok then (calls + 1, None)
    else if Carries(links[0], tunnelIP) then (calls + 1, Some(links[0].mtu))
    else AfterScan(o, calls + 1, links[1..], tunnelIP)
  }

  /** `getMTU`: the number of calls made so far and the tunnel's MTU, or None for an error. */
  function AfterGetMtu(o: Oracle, calls: nat, kind: Kind, links: seq<Link>, tunnelIP: IP): (nat, Option<Uint32>) {
    if !o(calls).ok then (calls + 1, None)
    else
      var (calls', link) := AfterScan(o, calls + 1, links, tunnelIP);
      (calls', if link.None? then None else Some(TunnelMtuOf(kind, link.value, To4(tunnelIP).None?)))
  }

  /** What a scan finds is the first link, and without failures it finds that. */
  lemma {:induction false} ScanFindsFirst(o: Oracle, calls: nat, links: seq<Link>, tunnelIP: IP)
    ensures var found := AfterScan(o, calls, links, tunnelIP).1;
            (found.Some? || NeverFails(o)) ==> found == FindLink(links, tunnelIP)
    decreases |links|
  {
    hide Carries;
    if links != [] { ScanFindsFirst(o, calls + 1, links[1..], tunnelIP); }
  }

  // ---- Clamping ----

  function Lowered(x: Uint32, limit: Uint32): Uint32 {
    if x > limit || x == 0 then limit else x
  }

  /** A server element lowers the mechanism to its own end of the tunnel and the connection to the mechanism. */
  function AfterServer(mtu: Uint32, mechanism: Uint32, context: Uint32): (Uint32, Uint32) {
    (Lowered(mechanism, mtu), Lowered(context, Lowered(mechanism, mtu)))
  }

  // ---- Hops ----

  /** One end of a tunnel. */
  datatype End = End(link: Uint32, isV6: bool)

  /** A tunnel from a client element to a server element; `asked` is what the mechanism says to begin with. */
  datatype Hop = Hop(kind: Kind, asked: Uint32, client: End, server: End)

  function EndMtu(h: Hop, e: End): Uint32 {
    TunnelMtuOf(h.kind, e.link, e.isV6)
  }

  function HopMtu(h: Hop): Uint32 {
    Lowered(Lowered(h.asked, EndMtu(h, h.client)), EndMtu(h, h.server))
  }

  /** The connection's MTU after a request has passed through the hops. */
  function Negotiated(context: Uint32, hops: seq<Hop>): Uint32 {
    if hops == [] then context
    else
      var last := hops[|hops| - 1];
      AfterServer(EndMtu(last, last.server), Lowered(last.asked, EndMtu(last, last.client)),
                  Negotiated(context, hops[..|hops| - 1])).1
  }

  predicate FitsEnd(h: Hop, e: End, mtu: Uint32) {
    mtu + Overhead(h.kind, e.isV6) <= e.link
  }

  predicate LargeEnd(h: Hop, e: End) {
    Overhead(h.kind, e.isV6) < e.link
  }

  predicate LargeLinks(h: Hop) {
    LargeEnd(h, h.client) && LargeEnd(h, h.server)
  }

  /** What limits the connection. */
  function Limits(context: Uint32, hops: seq<Hop>): set<Uint32> {
    (if context == 0 then {} else {context}) + set h | h in hops :: HopMtu(h)
  }

  predicate IsMinimum(m: Uint32, s: set<Uint32>) {
    m in s && forall x :: x in s ==> m <= x
  }

  /** On a link larger than the overhead, and on no other, the tunnel's MTU is set and leaves room for the overhead. */
  lemma EndMtuIff(h: Hop, e: End)
    ensures EndMtu(h, e) > 0 && FitsEnd(h, e, EndMtu(h, e)) <==> LargeEnd(h, e)
  {
  }

  lemma HopMtuFits(h: Hop)
    requires LargeLinks(h)
    ensures HopMtu(h) > 0 && FitsEnd(h, h.client, HopMtu(h)) && FitsEnd(h, h.server, HopMtu(h))
    ensures h.asked > 0 ==> HopMtu(h) <= h.asked
  {
    EndMtuIff(h, h.client);
    EndMtuIff(h, h.server);
  }

  /** The first link that has the address and an MTU. */
  ghost predicate IsFirstLink(links: seq<Link>, tunnelIP: IP, i: nat) {
    && i < |links| && Carries(links[i], tunnelIP)
    && forall j :: 0 <= j < i ==> !Carries(links[j], tunnelIP)
  }

  lemma {:induction false} FoundIsFirst(links: seq<Link>, tunnelIP: IP) returns (i: nat)
    requires FindLink(links, tunnelIP).Some?
    ensures IsFirstLink(links, tunnelIP, i) && FindLink(links, tunnelIP) == Some(links[i].mtu)
  {
    hide Carries;
    if Carries(links[0], tunnelIP) {
      i := 0;
    } else {
      i := FoundIsFirst(links[1..], tunnelIP);
      i := i + 1;
      assert forall j :: 0 < j < i ==> links[j] == links[1..][j - 1];
    }
  }

  /** What `getMTU` gives is the MTU of an end of a tunnel on the first link with the tunnel's address and an MTU. On a link
      that is large enough, the headers of the tunnel make it up to the link's own: 20 bytes more over IPv6 than over IPv4. */
  lemma GetMtuMeans(o: Oracle, calls: nat, kind: Kind, links: seq<Link>, tunnelIP: IP) returns (i: nat)
    requires AfterGetMtu(o, calls, kind, links, tunnelIP).1.Some?
    ensures IsFirstLink(links, tunnelIP, i)
    ensures links[i].mtu != 0
    ensures exists k :: 0 <= k < |links[i].addresses| &&
              links[i].addresses[k].address.af == ToVppAddress(tunnelIP).af && Equal(FromVppAddress(links[i].addresses[k].address), tunnelIP)
    ensures var m, isV6 := AfterGetMtu(o, calls, kind, links, tunnelIP).1.value, ToVppAddress(tunnelIP).af == ADDRESS_IP6;
            && (forall h: Hop :: h.kind == kind ==> m == EndMtu(h, End(links[i].mtu, isV6)))
            && var bytes := (match kind case VXLAN => 54 case WIREGUARD => 60 case IPSEC => 81) + if isV6 then 20 else 0;
               && (forall h: Hop :: h.kind == kind ==> (LargeEnd(h, End(links[i].mtu, isV6)) <==> bytes < links[i].mtu))
               && (bytes < links[i].mtu ==> m + bytes == links[i].mtu)
  {
    FamilyIs(tunnelIP);
    hide To4, ToVppAddress, FromVppAddress, Equal, Carries, EndMtu, LargeEnd, TunnelMtuOf, FindLink, AfterScan;
    ScanFindsFirst(o, calls + 1, links, tunnelIP);
    i := FoundIsFirst(links, tunnelIP);
    CarriesMeans(links[i], tunnelIP);
    BytesMean(kind, links[i].mtu, ToVppAddress(tunnelIP).af == ADDRESS_IP6);
  }

  lemma FamilyIs(ip: IP)
    ensures To4(ip).None? <==> ToVppAddress(ip).af == ADDRESS_IP6
  {
  }

  lemma CarriesMeans(link: Link, tunnelIP: IP)
    requires Carries(link, tunnelIP)
    ensures link.mtu != 0
    ensures exists k :: 0 <= k < |link.addresses| &&
              link.addresses[k].address.af == ToVppAddress(tunnelIP).af && Equal(FromVppAddress(link.addresses[k].address), tunnelIP)
  {
    hide ToVppAddress, FromVppAddress, Equal;
  }

  lemma BytesMean(kind: Kind, link: Uint32, isV6: bool)
    ensures var bytes := (match kind case VXLAN => 54 case WIREGUARD => 60 case IPSEC => 81) + if isV6 then 20 else 0;
            && (forall h: Hop :: h.kind == kind ==> EndMtu(h, End(link, isV6)) == TunnelMtuOf(kind, link, isV6))
            && (forall h: Hop :: h.kind == kind ==> (LargeEnd(h, End(link, isV6)) <==> bytes < link))
            && (bytes < link ==> TunnelMtuOf(kind, link, isV6) + bytes == link)
  {
  }

  /** A client element gives a mechanism of its kind, and no other, the lesser of its own MTU and the tunnel's; the server
      element after it completes the hop. */
  lemma ElementsMakeHop(h: Hop, context: Uint32, other: Mechanism)
    requires other.kind != Some(h.kind)
    ensures var limit := EndMtu(h, h.client);
            var mechanism := ClampedTo(h.kind, limit, Mechanism(Some(h.kind), h.asked));
            && ClampedTo(h.kind, limit, other) == other
            && mechanism == Mechanism(Some(h.kind), if h.asked == 0 || limit < h.asked then limit else h.asked)
            && AfterServer(EndMtu(h, h.server), mechanism.mtu, context) == (HopMtu(h), Negotiated(context, [h]))
  {
    assert [h][..0] == [];
    hide EndMtu;
  }

  /** The connection's MTU is the least of the tunnels' and of its own, if it had one. */
  lemma {:induction false} NegotiatedIsMinimum(context: Uint32, hops: seq<Hop>)
    requires forall h :: h in hops ==> LargeLinks(h)
    ensures if context == 0 && hops == [] then Negotiated(context, hops) == 0
            else IsMinimum(Negotiated(context, hops), Limits(context, hops))
    ensures 0 !in Limits(context, hops)
  {
    hide HopMtu, LargeLinks, AfterServer;
    forall h | h in hops
      ensures HopMtu(h) > 0
    {
      HopMtuFits(h);
    }
    if hops != [] {
      var last := hops[|hops| - 1];
      NegotiatedIsMinimum(context, hops[..|hops| - 1]);
      OneMoreHop(context, hops);
    }
  }

  lemma OneMoreHop(context: Uint32, hops: seq<Hop>)
    requires hops != []
    ensures Limits(context, hops) == Limits(context, hops[..|hops| - 1]) + {HopMtu(hops[|hops| - 1])}
    ensures Negotiated(context, hops) == Lowered(Negotiated(context, hops[..|hops| - 1]), HopMtu(hops[|hops| - 1]))
  {
    assert hops == hops[..|hops| - 1] + [hops[|hops| - 1]];
    hide EndMtu;
  }

  /** The order of the hops does not matter, nor does passing through some of them again. */
  lemma OrderDoesNotMatter(context: Uint32, hops: seq<Hop>, others: seq<Hop>)
    requires forall h :: h in hops ==> LargeLinks(h)
    requires forall h :: h in hops <==> h in others
    ensures Negotiated(context, hops) == Negotiated(context, others)
  {
    hide HopMtu, LargeLinks, Negotiated;
    assert hops == [] <==> others == [] by {
      if hops != [] { assert hops[0] in others; }
      if others != [] { assert others[0] in hops; }
    }
    assert Limits(context, hops) == Limits(context, others);
    NegotiatedIsMinimum(context, hops);
    NegotiatedIsMinimum(context, others);
    hide Limits;
  }

  /** A refresh, which starts with the negotiated values, leaves them. */
  lemma RefreshKeeps(context: Uint32, hops: seq<Hop>, again: seq<Hop>)
    requires forall h :: h in hops ==> LargeLinks(h)
    requires |again| == |hops|
    requires forall i :: 0 <= i < |hops| ==> again[i] == hops[i].(asked := HopMtu(hops[i]))
    ensures Negotiated(Negotiated(context, hops), again) == Negotiated(context, hops)
  {
    if hops == [] { return; }
    hide HopMtu, LargeLinks, Negotiated;
    forall i | 0 <= i < |hops|
      ensures HopMtu(again[i]) == HopMtu(hops[i]) && LargeLinks(again[i])
    {
      assert LargeLinks(hops[i]);
      SameHopMtu(hops[i]);
    }
    NegotiatedIsMinimum(context, hops);
    var m := Negotiated(context, hops);
    NegotiatedIsMinimum(m, again);
    assert Limits(m, again) <= Limits(context, hops) + {m} by {
      forall h | h in again
        ensures HopMtu(h) in Limits(context, hops)
      {
        var i :| 0 <= i < |again| && again[i] == h;
        assert hops[i] in hops;
      }
    }
    assert m in Limits(m, again);
  }

  lemma SameHopMtu(h: Hop)
    requires LargeLinks(h)
    ensures HopMtu(h.(asked := HopMtu(h))) == HopMtu(h) && LargeLinks(h.(asked := HopMtu(h)))
  {
    EndMtuIff(h, h.client);
    EndMtuIff(h, h.server);
    var h' := h.(asked := HopMtu(h));
    assert EndMtu(h', h'.client) == EndMtu(h, h.client) && EndMtu(h', h'.server) == EndMtu(h, h.server);
    hide EndMtu, LargeLinks;
  }

  /** The connection has an MTU, and a packet of that size with any tunnel's overhead fits both of its links, exactly if
      every link is larger than the overhead of its tunnel. */
  lemma FitsIff(context: Uint32, hops: seq<Hop>)
    requires hops != []
    ensures (&& Negotiated(context, hops) > 0
             && forall h :: h in hops ==> FitsEnd(h, h.client, Negotiated(context, hops)) && FitsEnd(h, h.server, Negotiated(context, hops)))
            <==> forall h :: h in hops ==> LargeLinks(h)
  {
    hide Negotiated, HopMtu;
    if forall h :: h in hops ==> LargeLinks(h) {
      NegotiatedIsMinimum(context, hops);
      forall h | h in hops
        ensures FitsEnd(h, h.client, Negotiated(context, hops)) && FitsEnd(h, h.server, Negotiated(context, hops))
      {
        HopMtuFits(h);
        assert HopMtu(h) in Limits(context, hops);
      }
    }
  }

  // ---- The program ----

  class Conn {
    const oracle: Oracle
    const links: seq<Link>
    var calls: nat

    constructor (oracle: Oracle, links: seq<Link>)
      ensures this.oracle == oracle && this.links == links && calls == 0
    {
      this.oracle, this.links := oracle, links;
      calls := 0;
    }

    method Call() returns (ok: bool)
      modifies this
      ensures ok == oracle(old(calls)).ok && calls == old(calls) + 1
    {
      ok := oracle(calls).ok;
      calls := calls + 1;
    }

    method GetMtu(kind: Kind, tunnelIP: IP) returns (mtu: Option<Uint32>)
      modifies this
      ensures (calls, mtu) == AfterGetMtu(oracle, old(calls), kind, links, tunnelIP)
    {
      hide IsAddress, To4;
      var ok := Call();
      if !ok { return None; }
      ghost var start := calls;
      assert links[0..] == links;
      var i := 0;
      while i < |links|
        invariant i <= |links| && AfterScan(oracle, calls, links[i..], tunnelIP) == AfterScan(oracle, start, links, tunnelIP)
      {
        var link := links[i];
        assert links[i..][0] == link && links[i..][1..] == links[i + 1..];
        ok := Call();
        if !ok { return None; }
        for k := 0 to |link.addresses|
          invariant !exists j :: 0 <= j < k && IsAddress(link.addresses[j], tunnelIP) && link.mtu != 0
        {
          if IsAddress(link.addresses[k], tunnelIP) && link.mtu != 0 {
            return Some(Sub32(link.mtu, Overhead(kind, To4(tunnelIP).None?)));
          }
        }
        i := i + 1;
      }
      return None;
    }
  }

  /** What both elements have: the MTU of their end of the tunnel, worked out once. */
  class MtuElement {
    const vpp: Conn
    const kind: Kind
    const tunnelIP: IP
    var mtu: Uint32
    var inited: bool

    constructor (vpp: Conn, kind: Kind, tunnelIP: IP)
      ensures this.vpp == vpp && this.kind == kind && this.tunnelIP == tunnelIP && !inited
    {
      this.vpp, this.kind, this.tunnelIP := vpp, kind, tunnelIP;
      mtu, inited := 0, false;
    }

    /** What the next `Init` comes to. */
    ghost function Found(): Option<Uint32>
      reads this, vpp
    {
      if inited then Some(mtu) else AfterGetMtu(vpp.oracle, vpp.calls, kind, vpp.links, tunnelIP).1
    }

    method Init() returns (ok: bool)
      modifies this, vpp
      ensures ok == inited == old(Found()).Some?
      ensures ok ==> mtu == old(Found()).value
      ensures old(inited) ==> vpp.calls == old(vpp.calls)
      ensures !old(inited) ==> vpp.calls == AfterGetMtu(vpp.oracle, old(vpp.calls), kind, vpp.links, tunnelIP).0
    {
      if inited { return true; }
      var found := vpp.GetMtu(kind, tunnelIP);
      if found.Some? { mtu, inited := found.value, true; }
      return found.Some?;
    }

    /** The part of the server element before the next one; without a tunnel mechanism nothing changes. */
    method ServerRequest(mechanism: Mechanism, context: Uint32)
      returns (ok: bool, mechanism': Mechanism, context': Uint32)
      modifies this, vpp
      ensures ok == (old(Found()).Some? || (kind == IPSEC && mechanism.kind != Some(kind)))
      ensures ok ==> mechanism'.kind == mechanism.kind
      ensures ok && mechanism.kind == Some(kind) ==> (mechanism'.mtu, context') == AfterServer(mtu, mechanism.mtu, context)
      ensures inited ==> Some(mtu) == old(Found())
      ensures !ok || mechanism.kind != Some(kind) ==> mechanism' == mechanism && context' == context
    {
      mechanism', context' := mechanism, context;
      ok := true;
      if kind != IPSEC {
        ok := Init();
        if !ok { return; }
      }
      if mechanism.kind == Some(kind) {
        ok := Init();
        if !ok { return; }
        if mechanism'.mtu > mtu || mechanism'.mtu == 0 { mechanism' := mechanism'.(mtu := mtu); }
        if context' > mechanism'.mtu || context' == 0 { context' := mechanism'.mtu; }
      }
    }

    /** The part of the client element before the next one: the mechanism and every preference, in place. */
    method ClientRequest(mechanism: Mechanism, preferences: array<Mechanism>)
      returns (ok: bool, mechanism': Mechanism)
      modifies this, vpp, preferences
      ensures ok == old(Found()).Some? && (inited ==> Some(mtu) == old(Found()))
      ensures ok ==> inited && mechanism' == ClampedTo(kind, mtu, mechanism)
      ensures ok ==> forall i :: 0 <= i < preferences.Length ==> preferences[i] == ClampedTo(kind, mtu, old(preferences[i]))
      ensures !ok ==> !inited && mechanism' == mechanism && preferences[..] == old(preferences[..])
    {
      mechanism' := mechanism;
      ok := Init();
      if !ok { return; }
      if mechanism.kind == Some(kind) && (mechanism.mtu == 0 || mechanism.mtu > mtu) { mechanism' := mechanism.(mtu := mtu); }
      ghost var own := mtu;
      for i := 0 to preferences.Length
        invariant inited && mtu == own
        invariant forall j :: 0 <= j < i ==> preferences[j] == ClampedTo(kind, mtu, old(preferences[j]))
        invariant forall j :: i <= j < preferences.Length ==> preferences[j] == old(preferences[j])
      {
        var mech := preferences[i];
        if mech.kind == Some(kind) && (mech.mtu == 0 || mech.mtu > mtu) { preferences[i] := mech.(mtu := mtu); }
      }
    }
  }

  /** A mechanism of another kind is left alone. */
  function ClampedTo(kind: Kind, mtu: Uint32, mechanism: Mechanism): Mechanism {
    if mechanism.kind == Some(kind) then mechanism.(mtu := Lowered(mechanism.mtu, mtu)) else mechanism
  }
}
