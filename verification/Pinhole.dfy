/** Pinholes: an access list that permits a tunnel's own packets is put in front of the lists an interface
    already has (pkg/networkservice/pinhole/common.go). */
module Pinhole {
  import opened Collections
  import opened Wrappers
  import opened GoNet
  import opened IpTypes
  import opened Vpp
  import opened Acl

  datatype AclEntry = AclEntry(tag: string, rules: seq<Rule>)

  /** What VPP keeps for an interface: the ingress lists and then the egress lists. */
  datatype IfAcls = IfAcls(acls: seq<nat>, nInput: nat)

  datatype Interface = Interface(swIfIndex: nat, addresses: seq<Prefix>)

  datatype AclState = AclState(acls: map<nat, AclEntry>, lists: map<nat, IfAcls>, interfaces: seq<Interface>, calls: nat)

  /** What a dump tells about one list. */
  datatype Detail = Detail(index: nat, tag: string)

  const ACL_TAG := "nsm-pinhole"

  function TagOf(port: Port): string {
    ACL_TAG + " port " + Digits(port)
  }

  // ---- Reading ----

  function ListOf(v: AclState, swIfIndex: nat): IfAcls {
    if swIfIndex in v.lists then v.lists[swIfIndex] else IfAcls([], 0)
  }

  predicate WellSplit(l: IfAcls) {
    l.nInput <= |l.acls|
  }

  /** The lists of one direction. */
  function Direction(l: IfAcls, egress: bool): seq<nat>
    requires WellSplit(l)
  {
    if egress then l.acls[l.nInput..] else l.acls[..l.nInput]
  }

  predicate Known(acls: map<nat, AclEntry>, indices: seq<nat>) {
    forall i :: 0 <= i < |indices| ==> indices[i] in acls
  }

  function DetailsOf(acls: map<nat, AclEntry>, indices: seq<nat>): seq<Detail>
    requires Known(acls, indices)
  {
    seq(|indices|, i requires 0 <= i < |indices| => Detail(indices[i], acls[indices[i]].tag))
  }

  function Indices(details: seq<Detail>): seq<nat> {
    seq(|details|, i requires 0 <= i < |details| => details[i].index)
  }

  predicate HasTag(details: seq<Detail>, tag: string) {
    exists i :: 0 <= i < |details| && details[i].tag == tag
  }

  predicate HasAddress(i: Interface, ip: IP) {
    exists k :: 0 <= k < |i.addresses| && IsAddress(i.addresses[k], ip)
  }

  /** The first interface with the address. */
  function FindInterface(interfaces: seq<Interface>, ip: IP): Option<nat> {
    if interfaces == [] then None
    else if HasAddress(interfaces[0], ip) then Some(interfaces[0].swIfIndex)
    else FindInterface(interfaces[1..], ip)
  }

  /** An address of the interface, in its own family, is the one that is looked for. */
  ghost predicate On(i: Interface, ip: IP) {
    exists a :: a in i.addresses && a.address.af == ToVppAddress(ip).af && Equal(FromVppPrefix(a).ip, ip)
  }

  lemma HasAddressIsOn(i: Interface, ip: IP)
    ensures HasAddress(i, ip) <==> On(i, ip)
  {
    hide FromVppPrefix, ToVppAddress, Equal;
    if On(i, ip) {
      var a :| a in i.addresses && a.address.af == ToVppAddress(ip).af && Equal(FromVppPrefix(a).ip, ip);
      assert IsAddress(a, ip);
    }
  }

  /** The interface that is found is the first that has the address, and there is none only if no interface has it. */
  lemma {:induction false} FoundIsFirst(interfaces: seq<Interface>, ip: IP) returns (k: nat)
    ensures k <= |interfaces| && forall j :: 0 <= j < k ==> !On(interfaces[j], ip)
    ensures FindInterface(interfaces, ip) == if k < |interfaces| then Some(interfaces[k].swIfIndex) else None
    ensures k < |interfaces| ==> On(interfaces[k], ip)
  {
    hide On, HasAddress;
    k := 0;
    if interfaces != [] {
      HasAddressIsOn(interfaces[0], ip);
      if !HasAddress(interfaces[0], ip) {
        k := FoundIsFirst(interfaces[1..], ip);
        k := k + 1;
        assert forall j :: 0 < j < |interfaces| ==> interfaces[j] == interfaces[1..][j - 1];
      }
    }
  }

  /** The empty address is on no interface. */
  lemma {:induction false} NoEmptyAddress(interfaces: seq<Interface>)
    ensures FindInterface(interfaces, []) == None
  {
    if interfaces != [] { NoEmptyAddress(interfaces[1..]); }
  }

  // ---- The steps of `create` ----

  function Called(v: AclState): AclState {
    v.(calls := v.calls + 1)
  }

  /** The addresses of one interface after another, each with a dump of its own. */
  function AfterScan(o: Oracle, v: AclState, interfaces: seq<Interface>, ip: IP): (AclState, Option<nat>)
    decreases |interfaces|
  {
    if interfaces == [] then (v, None)
    else if !o(v.calls).ok then (Called(v), None)
    else if HasAddress(interfaces[0], ip) then (Called(v), Some(interfaces[0].swIfIndex))
    else AfterScan(o, Called(v), interfaces[1..], ip)
  }

  /** `tunnelIPSwIfIndex`. */
  function AfterLookup(o: Oracle, v: AclState, ip: IP): (AclState, Option<nat>) {
    if o(v.calls).ok then AfterScan(o, Called(v), v.interfaces, ip) else (Called(v), None)
  }

  /** `aclDetails`: one dump for each list, up to the first that fails. */
  function AfterDetails(o: Oracle, v: AclState, indices: seq<nat>): (AclState, Option<seq<Detail>>)
    decreases |indices|
  {
    if indices == [] then (v, Some([]))
    else if !o(v.calls).ok || indices[0] !in v.acls then (Called(v), None)
    else
      var (v', rest) := AfterDetails(o, Called(v), indices[1..]);
      (v', if rest.None? then None else Some([Detail(indices[0], v.acls[indices[0]].tag)] + rest.value))
  }

  /** `interfacesACLDetails`. */
  function AfterDump(o: Oracle, v: AclState, swIfIndex: nat): (AclState, Option<(seq<Detail>, seq<Detail>)>) {
    var l := ListOf(v, swIfIndex);
    if !o(v.calls).ok || !WellSplit(l) then (Called(v), None)
    else
      var (v1, ingress) := AfterDetails(o, Called(v), Direction(l, false));
      if ingress.None? then (v1, None)
      else
        var (v2, egress) := AfterDetails(o, v1, Direction(l, true));
        (v2, if egress.None? then None else Some((ingress.value, egress.value)))
  }

  function DefaultNet(ip: IP): IPNet {
    if To4(ip).None? then IPNet(ZeroBytes(16), CIDRMask(0, 128)) else IPNet(V4_IN_V6_PREFIX + [0, 0, 0, 0], CIDRMask(0, 32))
  }

  function TunnelNet(ip: IP): IPNet {
    if To4(ip).None? then IPNet(ip, CIDRMask(128, 128)) else IPNet(ip, CIDRMask(32, 32))
  }

  /** `createACLAddReplace`: to the tunnel's address and port on the way in, from its address on the way out. */
  function PinholeRule(ip: IP, port: Port, egress: bool): Rule {
    var any, tunnel := ToVppPrefix(DefaultNet(ip)), ToVppPrefix(TunnelNet(ip));
    Rule(PERMIT, UDP, if egress then tunnel else any, if egress then any else tunnel, 0, 65535, port, port)
  }

  function PinholeAcl(ip: IP, port: Port, tag: string, egress: bool): AclEntry {
    AclEntry(tag, [PinholeRule(ip, port, egress)])
  }

  /** `addToACLToACLListIfNeeded`. */
  function AfterExtend(o: Oracle, v: AclState, ip: IP, port: Port, tag: string, egress: bool, details: seq<Detail>)
    : (AclState, Option<seq<nat>>) {
    if HasTag(details, tag) || details == [] then (v, Some(Indices(details)))
    else if !o(v.calls).ok then (Called(v), None)
    else
      var index := Allocate(v.acls.Keys, o(v.calls).hint);
      (Called(v).(acls := v.acls[index := PinholeAcl(ip, port, tag, egress)]), Some([index] + Indices(details)))
  }

  function Uint8(n: nat): nat {
    n % 256
  }

  /** VPP takes as many lists as the count says. */
  function AfterSet(o: Oracle, v: AclState, swIfIndex: nat, acls: seq<nat>, nInput: nat): (AclState, bool) {
    if o(v.calls).ok then (Called(v).(lists := v.lists[swIfIndex := IfAcls(acls[..Uint8(|acls|)], nInput)]), true)
    else (Called(v), false)
  }

  /** From the two dumped lists on. */
  function AfterInsert(o: Oracle, v: AclState, ip: IP, port: Port, tag: string, swIfIndex: nat,
                       ingress: seq<Detail>, egress: seq<Detail>): (AclState, bool) {
    var (v1, in') := AfterExtend(o, v, ip, port, tag, false, ingress);
    if in'.None? then (v1, false)
    else
      var (v2, out') := AfterExtend(o, v1, ip, port, tag, true, egress);
      if out'.None? then (v2, false)
      else AfterWrite(o, v2, swIfIndex, in'.value, out'.value, |ingress| + |egress|)
  }

  /** The lists are written only if their number has changed. */
  function AfterWrite(o: Oracle, v: AclState, swIfIndex: nat, in': seq<nat>, out': seq<nat>, before: nat): (AclState, bool) {
    if Uint8(|in' + out'|) == Uint8(before) then (v, true)
    else AfterSet(o, v, swIfIndex, in' + out', Uint8(|in'|))
  }

  function AfterCreate(o: Oracle, v: AclState, ip: IP, port: Port, tag: string): (AclState, bool) {
    if ip == [] || port == 0 then (v, true)
    else
      var (v1, found) := AfterLookup(o, v, ip);
      if found.None? then (v1, false)
      else
        var (v2, dump) := AfterDump(o, v1, found.value);
        if dump.None? then (v2, false)
        else AfterInsert(o, v2, ip, port, tag, found.value, dump.value.0, dump.value.1)
  }

  // ---- Meaning ----

  function RulesOf(acls: map<nat, AclEntry>, indices: seq<nat>): seq<seq<Rule>>
    requires Known(acls, indices)
  {
    seq(|indices|, i requires 0 <= i < |indices| => acls[indices[i]].rules)
  }

  /** Whether `a` is the address `ip`. */
  predicate IsIp(a: Address, ip: IP) {
    var t := ToVppAddress(ip);
    a.af == t.af && a.un[..AddressWidth(a.af)] == t.un[..AddressWidth(a.af)]
  }

  /** The packets a pinhole is for: UDP of the tunnel's family, in: to its address and port; out: from its
      address, to its port. */
  predicate IsTunnelPacket(ip: IP, port: Port, egress: bool, p: Packet) {
    && p.proto == UDP && p.dstPort == port
    && p.src.af == p.dst.af == ToVppAddress(ip).af
    && IsIp(if egress then p.src else p.dst, ip)
  }

  lemma TunnelNetLength(ip: IP)
    ensures MaskOnes(TunnelNet(ip).mask) == 8 * AddressWidth(ToVppAddress(ip).af)
    ensures MaskOnes(DefaultNet(ip).mask) == 0
  {
    hide MaskOnes, CIDRMask;
    LengthRoundTrip(128, 16);
    LengthRoundTrip(32, 4);
    LengthRoundTrip(0, 16);
    LengthRoundTrip(0, 4);
  }

  lemma DefaultNetFamily(ip: IP)
    ensures ToVppAddress(DefaultNet(ip).ip).af == ToVppAddress(ip).af
  {
    hide CIDRMask;
    var zero := V4_IN_V6_PREFIX + [0, 0, 0, 0];
    assert zero[..12] == V4_IN_V6_PREFIX;
    assert ZeroBytes(16)[..12][10] == 0;
  }

  lemma InTunnelNet(a: Address, ip: IP)
    ensures InPrefix(a, ToVppPrefix(TunnelNet(ip))) <==> IsIp(a, ip)
  {
    hide MaskOnes, CIDRMask, EqualBits, ToVppAddress;
    TunnelNetLength(ip);
    WholeBytesEqual(a.un, ToVppAddress(ip).un, AddressWidth(a.af));
  }

  lemma InDefaultNet(a: Address, ip: IP)
    ensures InPrefix(a, ToVppPrefix(DefaultNet(ip))) <==> a.af == ToVppAddress(ip).af
  {
    TunnelNetLength(ip);
    DefaultNetFamily(ip);
    hide MaskOnes, CIDRMask, ToVppAddress;
  }

  /** The rule of a pinhole matches exactly the packets the pinhole is for. */
  lemma PinholeRuleMeaning(ip: IP, port: Port, egress: bool, p: Packet)
    ensures Matches(PinholeRule(ip, port, egress), p) <==> IsTunnelPacket(ip, port, egress, p)
  {
    InTunnelNet(p.src, ip);
    InTunnelNet(p.dst, ip);
    InDefaultNet(p.src, ip);
    InDefaultNet(p.dst, ip);
    hide InPrefix, ToVppPrefix, TunnelNet, DefaultNet, ToVppAddress;
  }

  /** A permitting one-rule list in front of a non-empty list permits what the rule matches as well. */
  lemma PermitInFront(r: Rule, lists: seq<seq<Rule>>, p: Packet)
    requires r.action == PERMIT && lists != []
    ensures Permits([[r]] + lists, p) <==> Matches(r, p) || Permits(lists, p)
  {
    assert ([[r]] + lists)[1..] == lists;
    assert Concat([[r]] + lists) == [r] + Concat(lists);
    assert ([r] + Concat(lists))[1..] == Concat(lists);
  }

  // ---- What `create` does to the lists ----

  /** VPP's state is in order: every list is split within its length and names existing access lists. */
  ghost predicate Sound(v: AclState) {
    forall i :: i in v.lists ==> WellSplit(v.lists[i]) && Known(v.acls, v.lists[i].acls)
  }

  predicate Tagged(acls: map<nat, AclEntry>, indices: seq<nat>, tag: string)
    requires Known(acls, indices)
  {
    exists i :: 0 <= i < |indices| && acls[indices[i]].tag == tag
  }

  lemma TaggedDetails(acls: map<nat, AclEntry>, indices: seq<nat>, tag: string)
    requires Known(acls, indices)
    ensures HasTag(DetailsOf(acls, indices), tag) <==> Tagged(acls, indices, tag)
    ensures Indices(DetailsOf(acls, indices)) == indices
  {
    var details := DetailsOf(acls, indices);
    forall i | 0 <= i < |indices|
      ensures details[i].tag == acls[indices[i]].tag
    {
    }
  }

  /** What a pinhole for this address, port and direction is asked to do to a list. */
  datatype Ask = Ask(ip: IP, port: Port, tag: string, egress: bool)

  /** `after` is `before` with a pinhole in front, if there is a list at all and none of its members has the tag. */
  ghost predicate Extended(acls: map<nat, AclEntry>, acls': map<nat, AclEntry>, ask: Ask, before: seq<nat>, after: seq<nat>)
    requires Known(acls, before)
  {
    if before == [] || Tagged(acls, before, ask.tag) then after == before
    else
      && |after| == |before| + 1 && after[1..] == before
      && after[0] !in acls && after[0] in acls' && acls'[after[0]] == PinholeAcl(ask.ip, ask.port, ask.tag, ask.egress)
  }

  /** Access lists are only ever added. */
  ghost predicate Grown(acls: map<nat, AclEntry>, acls': map<nat, AclEntry>) {
    forall i :: i in acls ==> i in acls' && acls'[i] == acls[i]
  }

  lemma ExtendResult(o: Oracle, v: AclState, ask: Ask, before: seq<nat>)
    requires Known(v.acls, before)
    ensures var (v', after) := AfterExtend(o, v, ask.ip, ask.port, ask.tag, ask.egress, DetailsOf(v.acls, before));
            && Grown(v.acls, v'.acls) && v'.lists == v.lists && v'.interfaces == v.interfaces
            && (after.Some? ==> Extended(v.acls, v'.acls, ask, before, after.value) && Known(v'.acls, after.value))
  {
    hide PinholeAcl, FirstFree;
    TaggedDetails(v.acls, before, ask.tag);
  }

  lemma GrownTwice(a: map<nat, AclEntry>, b: map<nat, AclEntry>, c: map<nat, AclEntry>)
    requires Grown(a, b) && Grown(b, c)
    ensures Grown(a, c)
  {
  }

  lemma GrownKnows(a: map<nat, AclEntry>, b: map<nat, AclEntry>, indices: seq<nat>)
    requires Grown(a, b) && Known(a, indices)
    ensures Known(b, indices) && DetailsOf(b, indices) == DetailsOf(a, indices) && RulesOf(b, indices) == RulesOf(a, indices)
    ensures forall tag :: Tagged(b, indices, tag) <==> Tagged(a, indices, tag)
  {
    assert forall i :: 0 <= i < |indices| ==> b[indices[i]] == a[indices[i]];
  }

  /** An extension may be seen from earlier and from later. */
  lemma ExtendedWider(a: map<nat, AclEntry>, b: map<nat, AclEntry>, c: map<nat, AclEntry>, d: map<nat, AclEntry>,
                      ask: Ask, before: seq<nat>, after: seq<nat>)
    requires Grown(a, b) && Known(a, before) && Known(b, before) && Extended(b, c, ask, before, after) && Known(c, after) && Grown(c, d)
    ensures Extended(a, d, ask, before, after) && Known(d, after)
  {
    hide PinholeAcl;
    GrownKnows(a, b, before);
    hide Tagged;
  }

  /** How many pinholes a direction gets. */
  function Gain(acls: map<nat, AclEntry>, before: seq<nat>, tag: string): (n: nat)
    requires Known(acls, before)
    ensures n <= 1
  {
    if before == [] || Tagged(acls, before, tag) then 0 else 1
  }

  /** The lists of both directions, with what they get, are few enough to be counted in a byte. */
  ghost predicate Fits(v: AclState, swIfIndex: nat, tag: string)
    requires Sound(v)
  {
    DirectionKnown(v, swIfIndex);
    var l := ListOf(v, swIfIndex);
    |l.acls| + Gain(v.acls, Direction(l, false), tag) + Gain(v.acls, Direction(l, true), tag) < 256
  }

  lemma ExtendedLength(acls: map<nat, AclEntry>, acls': map<nat, AclEntry>, ask: Ask, before: seq<nat>, after: seq<nat>)
    requires Known(acls, before) && Extended(acls, acls', ask, before, after)
    ensures |after| == |before| + Gain(acls, before, ask.tag)
    ensures |after| == |before| ==> after == before
  {
  }

  /** The lists of the two directions, written together and split again: exact as long as there are fewer than 256. */
  lemma SplitIsExact(in': seq<nat>, out': seq<nat>)
    ensures var acls := in' + out';
            var written := IfAcls(acls[..Uint8(|acls|)], Uint8(|in'|));
            WellSplit(written) && Direction(written, false) == in' && Direction(written, true) == out'
            <==> |acls| < 256
  {
    var acls := in' + out';
    var written := IfAcls(acls[..Uint8(|acls|)], Uint8(|in'|));
    if WellSplit(written) && Direction(written, false) == in' && Direction(written, true) == out' {
      assert |written.acls| == |in'| + |out'|;
    }
  }

  /** Both directions of the interface are extended as needed, and nothing else but new access lists has come. */
  ghost predicate Pinned(v: AclState, v': AclState, ip: IP, port: Port, tag: string, swIfIndex: nat)
    requires Sound(v)
  {
    var l, l' := ListOf(v, swIfIndex), ListOf(v', swIfIndex);
    && v'.interfaces == v.interfaces && Grown(v.acls, v'.acls)
    && (forall i :: i != swIfIndex ==> ListOf(v', i) == ListOf(v, i))
    && WellSplit(l') && Known(v'.acls, l'.acls)
    && Extended(v.acls, v'.acls, Ask(ip, port, tag, false), Direction(l, false), Direction(l', false))
    && Extended(v.acls, v'.acls, Ask(ip, port, tag, true), Direction(l, true), Direction(l', true))
  }

  /** No list has changed. */
  ghost predicate Untouched(v: AclState, v': AclState) {
    v'.interfaces == v.interfaces && Grown(v.acls, v'.acls) && v'.lists == v.lists
  }

  lemma DirectionKnown(v: AclState, swIfIndex: nat)
    requires Sound(v)
    ensures var l := ListOf(v, swIfIndex);
            && WellSplit(l) && Known(v.acls, l.acls)
            && Known(v.acls, Direction(l, false)) && Known(v.acls, Direction(l, true))
            && l == IfAcls(Direction(l, false) + Direction(l, true), |Direction(l, false)|)
  {
    var l := ListOf(v, swIfIndex);
    assert l.acls == l.acls[..l.nInput] + l.acls[l.nInput..];
  }

  /** Known parts make a known, well-split whole. */
  lemma JoinedLists(acls: map<nat, AclEntry>, in': seq<nat>, out': seq<nat>)
    requires Known(acls, in') && Known(acls, out')
    ensures var l := IfAcls(in' + out', |in'|);
            WellSplit(l) && Known(acls, l.acls) && Direction(l, false) == in' && Direction(l, true) == out'
  {
  }

  /** What is written is what was meant, and nothing is written only if nothing was to be changed. */
  lemma WrittenLists(o: Oracle, v: AclState, swIfIndex: nat, in': seq<nat>, out': seq<nat>, in0: seq<nat>, out0: seq<nat>)
    requires ListOf(v, swIfIndex) == IfAcls(in0 + out0, |in0|) && |in'| + |out'| < 256
    requires |in0| <= |in'| <= |in0| + 1 && (|in'| == |in0| ==> in' == in0)
    requires |out0| <= |out'| <= |out0| + 1 && (|out'| == |out0| ==> out' == out0)
    ensures var (v', ok) := AfterWrite(o, v, swIfIndex, in', out', |in0| + |out0|);
            && v'.acls == v.acls && v'.interfaces == v.interfaces
            && (!ok ==> v'.lists == v.lists)
            && (ok ==> ListOf(v', swIfIndex) == IfAcls(in' + out', |in'|))
            && (forall i :: i != swIfIndex ==> ListOf(v', i) == ListOf(v, i))
  {
    var acls := in' + out';
    assert |acls| < 256;
    assert acls[..|acls|] == acls;
  }

  /** The write step, from the two extended lists. */
  lemma WriteIsPinned(o: Oracle, v: AclState, v2: AclState, ip: IP, port: Port, tag: string, swIfIndex: nat,
                      in': seq<nat>, out': seq<nat>)
    requires Sound(v) && |in'| + |out'| < 256
    requires Untouched(v, v2) && Known(v2.acls, in') && Known(v2.acls, out')
    requires Extended(v.acls, v2.acls, Ask(ip, port, tag, false), Direction(ListOf(v, swIfIndex), false), in')
    requires Extended(v.acls, v2.acls, Ask(ip, port, tag, true), Direction(ListOf(v, swIfIndex), true), out')
    ensures var (v', ok) := AfterWrite(o, v2, swIfIndex, in', out', |ListOf(v, swIfIndex).acls|);
            if ok then Pinned(v, v', ip, port, tag, swIfIndex) else Untouched(v, v')
  {
    var l := ListOf(v, swIfIndex);
    var in0, out0 := Direction(l, false), Direction(l, true);
    DirectionKnown(v, swIfIndex);
    ExtendedLength(v.acls, v2.acls, Ask(ip, port, tag, false), in0, in');
    ExtendedLength(v.acls, v2.acls, Ask(ip, port, tag, true), out0, out');
    UntouchedLists(v, v2);
    assert |in0| + |out0| == |l.acls|;
    assert v2.interfaces == v.interfaces && Grown(v.acls, v2.acls) && v2.lists == v.lists;
    hide *;
    WrittenLists(o, v2, swIfIndex, in', out', in0, out0);
    var (v', ok) := AfterWrite(o, v2, swIfIndex, in', out', |l.acls|);
    if ok {
      IsPinned(v, v', ip, port, tag, swIfIndex, in', out');
    } else {
      IsUntouched(v, v');
    }
  }

  lemma IsUntouched(v: AclState, v': AclState)
    requires v'.interfaces == v.interfaces && Grown(v.acls, v'.acls) && v'.lists == v.lists
    ensures Untouched(v, v')
  {
  }

  lemma UntouchedLists(v: AclState, v': AclState)
    requires Untouched(v, v')
    ensures forall i :: ListOf(v', i) == ListOf(v, i)
  {
  }

  lemma IsPinned(v: AclState, v': AclState, ip: IP, port: Port, tag: string, swIfIndex: nat, in': seq<nat>, out': seq<nat>)
    requires Sound(v) && v'.interfaces == v.interfaces && Grown(v.acls, v'.acls) && Known(v'.acls, in') && Known(v'.acls, out')
    requires forall i :: i != swIfIndex ==> ListOf(v', i) == ListOf(v, i)
    requires ListOf(v', swIfIndex) == IfAcls(in' + out', |in'|)
    requires WellSplit(ListOf(v, swIfIndex)) && Known(v.acls, ListOf(v, swIfIndex).acls)
    requires Known(v.acls, Direction(ListOf(v, swIfIndex), false)) && Known(v.acls, Direction(ListOf(v, swIfIndex), true))
    requires Extended(v.acls, v'.acls, Ask(ip, port, tag, false), Direction(ListOf(v, swIfIndex), false), in')
    requires Extended(v.acls, v'.acls, Ask(ip, port, tag, true), Direction(ListOf(v, swIfIndex), true), out')
    ensures Pinned(v, v', ip, port, tag, swIfIndex)
  {
    JoinedLists(v'.acls, in', out');
    hide Extended, Sound, Direction, Known, WellSplit, ListOf, Grown;
  }

  lemma InsertResult(o: Oracle, v: AclState, ip: IP, port: Port, tag: string, swIfIndex: nat)
    requires Sound(v) && Fits(v, swIfIndex, tag)
    ensures var l := ListOf(v, swIfIndex);
            && WellSplit(l) && Known(v.acls, Direction(l, false)) && Known(v.acls, Direction(l, true))
            && var (v', ok) := AfterInsert(o, v, ip, port, tag, swIfIndex,
                                           DetailsOf(v.acls, Direction(l, false)), DetailsOf(v.acls, Direction(l, true)));
            if ok then Pinned(v, v', ip, port, tag, swIfIndex) else Untouched(v, v')
  {
    var l := ListOf(v, swIfIndex);
    DirectionKnown(v, swIfIndex);
    var in0, out0 := Direction(l, false), Direction(l, true);
    assert |l.acls| == |in0| + |out0|;
    assert Grown(v.acls, v.acls);
    assert |in0| + Gain(v.acls, in0, tag) + |out0| + Gain(v.acls, out0, tag) < 256;
    hide Sound, WellSplit, Direction, Known, ListOf, Pinned, AfterInsert, DetailsOf, Extended, Grown, AfterExtend, AfterWrite;
    var (v1, in') := AfterExtend(o, v, ip, port, tag, false, DetailsOf(v.acls, in0));
    ExtendResult(o, v, Ask(ip, port, tag, false), in0);
    var (v2, out') := AfterExtend(o, v1, ip, port, tag, true, DetailsOf(v.acls, out0));
    GrownKnows(v.acls, v1.acls, out0);
    ExtendResult(o, v1, Ask(ip, port, tag, true), out0);
    GrownTwice(v.acls, v1.acls, v2.acls);
    InsertSteps(o, v, ip, port, tag, swIfIndex, in0, out0, v1, in', v2, out');
    if in'.Some? && out'.Some? {
      ExtendedLength(v.acls, v1.acls, Ask(ip, port, tag, false), in0, in'.value);
      ExtendedLength(v1.acls, v2.acls, Ask(ip, port, tag, true), out0, out'.value);
      BothExtended(v.acls, v1.acls, v2.acls, Ask(ip, port, tag, false), Ask(ip, port, tag, true), in0, in'.value, out0, out'.value);
      WriteIsPinned(o, v, v2, ip, port, tag, swIfIndex, in'.value, out'.value);
    }
  }

  /** `AfterInsert` from its two extensions. */
  lemma InsertSteps(o: Oracle, v: AclState, ip: IP, port: Port, tag: string, swIfIndex: nat, in0: seq<nat>, out0: seq<nat>,
                    v1: AclState, in': Option<seq<nat>>, v2: AclState, out': Option<seq<nat>>)
    requires Known(v.acls, in0) && Known(v.acls, out0)
    requires AfterExtend(o, v, ip, port, tag, false, DetailsOf(v.acls, in0)) == (v1, in')
    requires AfterExtend(o, v1, ip, port, tag, true, DetailsOf(v.acls, out0)) == (v2, out')
    ensures AfterInsert(o, v, ip, port, tag, swIfIndex, DetailsOf(v.acls, in0), DetailsOf(v.acls, out0)) ==
            if in'.None? then (v1, false)
            else if out'.None? then (v2, false)
            else AfterWrite(o, v2, swIfIndex, in'.value, out'.value, |in0| + |out0|)
  {
    hide AfterExtend, AfterWrite;
  }

  lemma BothExtended(a: map<nat, AclEntry>, b: map<nat, AclEntry>, c: map<nat, AclEntry>, askIn: Ask, askOut: Ask,
                     in0: seq<nat>, in': seq<nat>, out0: seq<nat>, out': seq<nat>)
    requires Grown(a, b) && Grown(b, c) && Known(a, in0) && Known(a, out0) && Known(b, out0)
    requires Extended(a, b, askIn, in0, in') && Known(b, in') && Extended(b, c, askOut, out0, out') && Known(c, out')
    ensures Extended(a, c, askIn, in0, in') && Known(c, in') && Extended(a, c, askOut, out0, out')
  {
    assert Grown(a, a) && Grown(c, c);
    hide Extended, Grown, Known;
    ExtendedWider(a, a, b, c, askIn, in0, in');
    ExtendedWider(a, b, c, c, askOut, out0, out');
  }

  /** The lists are written exactly if the byte-sized numbers of lists differ: 256 more, or the same lists in other places,
      would go unnoticed. */
  lemma WriteIsSkippedIff(o: Oracle, v: AclState, swIfIndex: nat, in': seq<nat>, out': seq<nat>, before: nat)
    ensures AfterWrite(o, v, swIfIndex, in', out', before) == (v, true) <==> (|in'| + |out'|) % 256 == before % 256
    ensures (|in'| + |out'|) % 256 != before % 256 ==> AfterWrite(o, v, swIfIndex, in', out', before).1 == o(v.calls).ok
  {
  }

  /** What `create` leaves: on success the two directions are extended as needed, on failure no list has changed. */
  lemma CreateResult(o: Oracle, v: AclState, ip: IP, port: Port, tag: string, swIfIndex: nat)
    requires Sound(v) && ip != [] && port != 0
    requires FindInterface(v.interfaces, ip) == Some(swIfIndex) && Fits(v, swIfIndex, tag)
    ensures var (v', ok) := AfterCreate(o, v, ip, port, tag);
            if ok then Pinned(v, v', ip, port, tag, swIfIndex) else Untouched(v, v')
  {
    hide AfterInsert, AfterDump, AfterLookup, Untouched, Pinned, FindInterface, Sound, Fits, OnlyCalls;
    var (v1, found) := AfterLookup(o, v, ip);
    LookupResult(o, v, ip);
    if found.None? {
      OnlyCallsUntouched(v, v1);
    } else {
      var (v2, dump) := AfterDump(o, v1, swIfIndex);
      SinceReads(v, v1, ip, port, tag, swIfIndex);
      DumpResult(o, v1, swIfIndex);
      SinceReads(v1, v2, ip, port, tag, swIfIndex);
      OnlyCallsTwice(v, v1, v2);
      SinceReads(v, v2, ip, port, tag, swIfIndex);
      OnlyCallsUntouched(v, v2);
      if dump.Some? {
        InsertResult(o, v2, ip, port, tag, swIfIndex);
        assert found == Some(swIfIndex);
        assert AfterCreate(o, v, ip, port, tag) == AfterInsert(o, v2, ip, port, tag, swIfIndex, dump.value.0, dump.value.1);
        assert dump.value.0 == DetailsOf(v2.acls, Direction(ListOf(v2, swIfIndex), false));
        assert dump.value.1 == DetailsOf(v2.acls, Direction(ListOf(v2, swIfIndex), true));
        var (v', ok) := AfterInsert(o, v2, ip, port, tag, swIfIndex, dump.value.0, dump.value.1);
        assert if ok then Pinned(v2, v', ip, port, tag, swIfIndex) else Untouched(v2, v');
      }
    }
  }

  // ---- What reading does ----

  /** Nothing but the number of calls. */
  predicate OnlyCalls(v: AclState, v': AclState) {
    v' == v.(calls := v'.calls)
  }

  lemma OnlyCallsTwice(v: AclState, v1: AclState, v2: AclState)
    requires OnlyCalls(v, v1) && OnlyCalls(v1, v2)
    ensures OnlyCalls(v, v2)
  {
  }

  lemma OnlyCallsUntouched(v: AclState, v': AclState)
    requires OnlyCalls(v, v')
    ensures Untouched(v, v')
  {
  }

  lemma {:induction false} ScanResult(o: Oracle, v: AclState, interfaces: seq<Interface>, ip: IP)
    ensures var (v', found) := AfterScan(o, v, interfaces, ip);
            && OnlyCalls(v, v')
            && (found.Some? || NeverFails(o) ==> found == FindInterface(interfaces, ip))
    decreases |interfaces|
  {
    hide HasAddress;
    if interfaces != [] { ScanResult(o, Called(v), interfaces[1..], ip); }
  }

  lemma LookupResult(o: Oracle, v: AclState, ip: IP)
    ensures var (v', found) := AfterLookup(o, v, ip);
            && OnlyCalls(v, v')
            && (found.Some? || NeverFails(o) ==> found == FindInterface(v.interfaces, ip))
  {
    ScanResult(o, Called(v), v.interfaces, ip);
    hide AfterScan, FindInterface;
  }

  lemma {:induction false} DetailsResult(o: Oracle, v: AclState, indices: seq<nat>)
    ensures var (v', details) := AfterDetails(o, v, indices);
            && OnlyCalls(v, v')
            && (details.Some? ==> Known(v.acls, indices) && details.value == DetailsOf(v.acls, indices))
            && (NeverFails(o) && Known(v.acls, indices) ==> details.Some?)
    decreases |indices|
  {
    if indices != [] {
      var rest := indices[1..];
      DetailsResult(o, Called(v), rest);
      KnownFirst(v.acls, indices);
      hide Known, DetailsOf;
    }
  }

  lemma KnownFirst(acls: map<nat, AclEntry>, indices: seq<nat>)
    requires indices != []
    ensures Known(acls, indices) <==> indices[0] in acls && Known(acls, indices[1..])
    ensures Known(acls, indices) ==>
            DetailsOf(acls, indices) == [Detail(indices[0], acls[indices[0]].tag)] + DetailsOf(acls, indices[1..])
  {
    assert indices == [indices[0]] + indices[1..];
  }

  lemma DumpReads(o: Oracle, v: AclState, swIfIndex: nat)
    ensures OnlyCalls(v, AfterDump(o, v, swIfIndex).0)
  {
    hide AfterDetails, Known, DetailsOf;
    var l := ListOf(v, swIfIndex);
    if WellSplit(l) {
      DetailsResult(o, Called(v), Direction(l, false));
      DetailsResult(o, AfterDetails(o, Called(v), Direction(l, false)).0, Direction(l, true));
    }
  }

  lemma DumpResult(o: Oracle, v: AclState, swIfIndex: nat)
    requires Sound(v)
    ensures var (v', dump) := AfterDump(o, v, swIfIndex);
            var l := ListOf(v, swIfIndex);
            && OnlyCalls(v, v')
            && WellSplit(l) && Known(v.acls, Direction(l, false)) && Known(v.acls, Direction(l, true))
            && (dump.Some? ==> dump.value == (DetailsOf(v.acls, Direction(l, false)), DetailsOf(v.acls, Direction(l, true))))
            && (NeverFails(o) ==> dump.Some?)
  {
    var l := ListOf(v, swIfIndex);
    DirectionKnown(v, swIfIndex);
    hide AfterDetails, Known, DetailsOf, Direction, WellSplit, ListOf, Sound;
    DetailsResult(o, Called(v), Direction(l, false));
    DetailsResult(o, AfterDetails(o, Called(v), Direction(l, false)).0, Direction(l, true));
  }

  /** What holds of a state holds of it after some reading. */
  lemma SinceReads(v: AclState, w: AclState, ip: IP, port: Port, tag: string, swIfIndex: nat)
    requires Sound(v) && OnlyCalls(v, w)
    ensures Sound(w) && ListOf(w, swIfIndex) == ListOf(v, swIfIndex) && w.acls == v.acls && w.interfaces == v.interfaces
    ensures Fits(v, swIfIndex, tag) ==> Fits(w, swIfIndex, tag)
    ensures forall v' :: Pinned(w, v', ip, port, tag, swIfIndex) ==> Pinned(v, v', ip, port, tag, swIfIndex)
    ensures forall v' :: Untouched(w, v') ==> Untouched(v, v')
  {
    hide Extended, Known, Direction, Grown, Gain, WellSplit;
    assert Sound(w);
    assert forall i :: ListOf(w, i) == ListOf(v, i);
    DirectionKnown(v, swIfIndex);
  }

  /** Without failures `create` succeeds whenever the tunnel's interface is found. */
  lemma CreateSucceeds(o: Oracle, v: AclState, ip: IP, port: Port, tag: string, swIfIndex: nat)
    requires NeverFails(o) && Sound(v) && ip != [] && port != 0 && FindInterface(v.interfaces, ip) == Some(swIfIndex)
    ensures AfterCreate(o, v, ip, port, tag).1
  {
    hide FindInterface, Sound, AfterLookup, AfterDump, AfterInsert, OnlyCalls;
    LookupResult(o, v, ip);
    var v1 := AfterLookup(o, v, ip).0;
    SinceReads(v, v1, ip, port, tag, swIfIndex);
    DumpResult(o, v1, swIfIndex);
    var (v2, dump) := AfterDump(o, v1, swIfIndex);
    InsertSucceeds(o, v2, ip, port, tag, swIfIndex, dump.value.0, dump.value.1);
  }

  lemma InsertSucceeds(o: Oracle, v: AclState, ip: IP, port: Port, tag: string, swIfIndex: nat, ingress: seq<Detail>, egress: seq<Detail>)
    requires NeverFails(o)
    ensures AfterInsert(o, v, ip, port, tag, swIfIndex, ingress, egress).1
  {
    hide HasTag, FirstFree, PinholeAcl, Indices;
  }

  // ---- What `create` does to packets ----

  /** Whether an interface lets a packet through in a direction. */
  ghost predicate Lets(v: AclState, swIfIndex: nat, egress: bool, p: Packet)
    requires Sound(v)
  {
    DirectionKnown(v, swIfIndex);
    Permits(RulesOf(v.acls, Direction(ListOf(v, swIfIndex), egress)), p)
  }

  /** Whether a pinhole is put into a direction. */
  ghost predicate Opens(v: AclState, swIfIndex: nat, egress: bool, tag: string)
    requires Sound(v)
  {
    DirectionKnown(v, swIfIndex);
    var indices := Direction(ListOf(v, swIfIndex), egress);
    indices != [] && !Tagged(v.acls, indices, tag)
  }

  lemma ExtendedRules(acls: map<nat, AclEntry>, acls': map<nat, AclEntry>, ask: Ask, before: seq<nat>, after: seq<nat>)
    requires Known(acls, before) && Extended(acls, acls', ask, before, after) && Grown(acls, acls') && Known(acls', after)
    requires before != [] && !Tagged(acls, before, ask.tag)
    ensures RulesOf(acls', after) == [[PinholeRule(ask.ip, ask.port, ask.egress)]] + RulesOf(acls, before)
    ensures RulesOf(acls, before) != []
  {
    hide PinholeRule, Tagged;
    assert forall i :: 0 <= i < |before| ==> after[i + 1] == before[i];
  }

  lemma ExtendedPermits(acls: map<nat, AclEntry>, acls': map<nat, AclEntry>, ask: Ask, before: seq<nat>, after: seq<nat>, p: Packet)
    requires Known(acls, before) && Extended(acls, acls', ask, before, after) && Grown(acls, acls') && Known(acls', after)
    ensures Permits(RulesOf(acls', after), p) <==>
            Permits(RulesOf(acls, before), p)
            || (before != [] && !Tagged(acls, before, ask.tag) && IsTunnelPacket(ask.ip, ask.port, ask.egress, p))
  {
    hide Permits, IsTunnelPacket, Matches, Tagged, PinholeAcl, ToVppPrefix, RulesOf, Known;
    GrownKnows(acls, acls', before);
    if before != [] && !Tagged(acls, before, ask.tag) {
      var r := PinholeRule(ask.ip, ask.port, ask.egress);
      ExtendedRules(acls, acls', ask, before, after);
      PermitInFront(r, RulesOf(acls, before), p);
      PinholeRuleMeaning(ask.ip, ask.port, ask.egress, p);
    }
  }

  /** A created pinhole lets through what was let through before and, where there were lists and none with the tag,
      exactly the packets of the tunnel as well. An interface without lists lets everything through, before and after. */
  lemma PinnedLets(v: AclState, v': AclState, ip: IP, port: Port, tag: string, swIfIndex: nat, egress: bool, p: Packet)
    requires Sound(v) && Sound(v') && Pinned(v, v', ip, port, tag, swIfIndex)
    ensures Lets(v', swIfIndex, egress, p) <==>
            Lets(v, swIfIndex, egress, p) || (Opens(v, swIfIndex, egress, tag) && IsTunnelPacket(ip, port, egress, p))
  {
    var l, l' := ListOf(v, swIfIndex), ListOf(v', swIfIndex);
    DirectionKnown(v, swIfIndex);
    DirectionKnown(v', swIfIndex);
    assert Extended(v.acls, v'.acls, Ask(ip, port, tag, egress), Direction(l, egress), Direction(l', egress));
    hide Extended, IsTunnelPacket, Permits, Direction, ListOf, Tagged, RulesOf, Sound, WellSplit, Known;
    ExtendedPermits(v.acls, v'.acls, Ask(ip, port, tag, egress), Direction(l, egress), Direction(l', egress), p);
  }

  /** No interface but the tunnel's own is affected. */
  lemma PinnedElsewhere(v: AclState, v': AclState, ip: IP, port: Port, tag: string, swIfIndex: nat, other: nat, egress: bool, p: Packet)
    requires Sound(v) && Sound(v') && Pinned(v, v', ip, port, tag, swIfIndex) && other != swIfIndex
    ensures Lets(v', other, egress, p) <==> Lets(v, other, egress, p)
  {
    DirectionKnown(v, other);
    GrownKnows(v.acls, v'.acls, Direction(ListOf(v, other), egress));
    hide Extended, Permits;
  }

  lemma PinnedSound(v: AclState, v': AclState, ip: IP, port: Port, tag: string, swIfIndex: nat)
    requires Sound(v) && Pinned(v, v', ip, port, tag, swIfIndex)
    ensures Sound(v')
  {
    forall i | i in v'.lists
      ensures WellSplit(v'.lists[i]) && Known(v'.acls, v'.lists[i].acls)
    {
      DirectionKnown(v, i);
      if i != swIfIndex { GrownKnows(v.acls, v'.acls, ListOf(v, i).acls); }
      assert v'.lists[i] == ListOf(v', i);
    }
  }

  /** One address and no other is the tunnel's. */
  lemma IsOneIp(a: Address, ip1: IP, ip2: IP)
    requires IsIp(a, ip1) && IsIp(a, ip2)
    ensures ToVppAddress(ip1) == ToVppAddress(ip2)
  {
    var t1, t2 := ToVppAddress(ip1), ToVppAddress(ip2);
    if t1.af == ADDRESS_IP4 {
      assert forall i :: 4 <= i < 16 ==> t1.un[i] == 0 && t2.un[i] == 0;
      assert t1.un[..4] == t2.un[..4];
      assert forall i :: 0 <= i < 4 ==> t1.un[i] == t1.un[..4][i] && t2.un[i] == t2.un[..4][i];
      assert t1.un == t2.un;
    } else {
      assert t1.un[..16] == t1.un && t2.un[..16] == t2.un;
    }
  }

  /** A packet of two tunnels belongs to tunnels of one address and port. */
  lemma TunnelsApart(ip1: IP, port1: Port, ip2: IP, port2: Port, egress: bool, p: Packet)
    requires IsTunnelPacket(ip1, port1, egress, p) && IsTunnelPacket(ip2, port2, egress, p)
    ensures port1 == port2 && ToVppAddress(ip1) == ToVppAddress(ip2)
  {
    IsOneIp(if egress then p.src else p.dst, ip1, ip2);
  }

  /** Once a direction has lists, and a pinhole was made for one address, a pinhole for another address and the same port on
      the same interface changes nothing: no packet of the second tunnel passes that did not pass before both. */
  lemma SharedPortIsShadowed(v: AclState, v1: AclState, v2: AclState, ip1: IP, ip2: IP, port: Port, swIfIndex: nat, egress: bool, p: Packet)
    requires Sound(v) && Sound(v1) && Sound(v2) && Opens(v, swIfIndex, egress, TagOf(port))
    requires Pinned(v, v1, ip1, port, TagOf(port), swIfIndex) && Pinned(v1, v2, ip2, port, TagOf(port), swIfIndex)
    requires ToVppAddress(ip1) != ToVppAddress(ip2) && IsTunnelPacket(ip2, port, egress, p)
    ensures Lets(v2, swIfIndex, egress, p) <==> Lets(v, swIfIndex, egress, p)
  {
    hide TagOf, IsTunnelPacket, Opens, Pinned, Lets, Sound, ToVppAddress;
    PinnedLets(v, v1, ip1, port, TagOf(port), swIfIndex, egress, p);
    PinnedLets(v1, v2, ip2, port, TagOf(port), swIfIndex, egress, p);
    PinnedHasTag(v, v1, ip1, port, TagOf(port), swIfIndex, egress);
    if IsTunnelPacket(ip1, port, egress, p) { TunnelsApart(ip1, port, ip2, port, egress, p); }
  }

  lemma PinnedHasTag(v: AclState, v': AclState, ip: IP, port: Port, tag: string, swIfIndex: nat, egress: bool)
    requires Sound(v) && Sound(v') && Pinned(v, v', ip, port, tag, swIfIndex)
    ensures !Opens(v', swIfIndex, egress, tag)
  {
    DirectionKnown(v, swIfIndex);
    DirectionKnown(v', swIfIndex);
    var before, after := Direction(ListOf(v, swIfIndex), egress), Direction(ListOf(v', swIfIndex), egress);
    assert Extended(v.acls, v'.acls, Ask(ip, port, tag, egress), before, after);
    GrownKnows(v.acls, v'.acls, before);
    hide Sound, Direction, ListOf, PinholeRule;
  }

  /** That happens: an interface whose one ingress list permits nothing, two addresses, one port. */
  lemma ShadowedTunnel(ip1: IP, ip2: IP, port: Port, egress: bool) returns (v: AclState, v1: AclState, p: Packet)
    requires ToVppAddress(ip1) != ToVppAddress(ip2)
    ensures Sound(v) && Sound(v1) && Opens(v, 1, egress, TagOf(port))
    ensures Pinned(v, v1, ip1, port, TagOf(port), 1) && Pinned(v1, v1, ip2, port, TagOf(port), 1)
    ensures IsTunnelPacket(ip2, port, egress, p) && !Lets(v1, 1, egress, p)
  {
    var tag := TagOf(port);
    assert tag != "";
    hide TagOf, PinholeRule, ToVppAddress;
    var nInput := if egress then 0 else 1;
    v := AclState(map[1 := AclEntry("", [])], map[1 := IfAcls([1], nInput)], [], 0);
    v1 := AclState(map[1 := AclEntry("", []), 2 := PinholeAcl(ip1, port, tag, egress)],
                   map[1 := IfAcls([2, 1], 2 * nInput)], [], 0);
    p := Packet(ToVppAddress(ip2), ToVppAddress(ip2), UDP, 0, port);
    ShadowedStates(v, v1, ip1, port, tag, egress);
    ShadowedAgain(v1, ip2, port, tag, egress, ip1);
    assert IsTunnelPacket(ip2, port, egress, p);
    hide Sound, Opens, Pinned;
    assert !Lets(v, 1, egress, p) by { LetsNothing(v, egress, p); }
    SharedPortIsShadowed(v, v1, v1, ip1, ip2, port, 1, egress, p);
  }

  lemma LetsNothing(v: AclState, egress: bool, p: Packet)
    requires Sound(v) && 1 in v.acls && v.acls[1].rules == [] && Direction(ListOf(v, 1), egress) == [1]
    ensures !Lets(v, 1, egress, p)
  {
    DirectionKnown(v, 1);
    assert RulesOf(v.acls, [1]) == [[]];
    assert Concat([[]]) == [];
  }

  lemma ShadowedStates(v: AclState, v1: AclState, ip: IP, port: Port, tag: string, egress: bool)
    requires tag != ""
    requires var n := if egress then 0 else 1;
             && v == AclState(map[1 := AclEntry("", [])], map[1 := IfAcls([1], n)], [], 0)
             && v1 == AclState(map[1 := AclEntry("", []), 2 := PinholeAcl(ip, port, tag, egress)],
                               map[1 := IfAcls([2, 1], 2 * n)], [], 0)
    ensures Sound(v) && Sound(v1) && Opens(v, 1, egress, tag) && Pinned(v, v1, ip, port, tag, 1)
    ensures Direction(ListOf(v, 1), egress) == [1]
  {
    hide PinholeRule;
    assert ListOf(v, 1).acls == [1] && ListOf(v1, 1).acls == [2, 1];
    assert Direction(ListOf(v, 1), egress) == [1] && Direction(ListOf(v1, 1), egress) == [2, 1];
    assert Direction(ListOf(v, 1), !egress) == [] && Direction(ListOf(v1, 1), !egress) == [];
    assert !Tagged(v.acls, [1], tag);
    assert [2, 1][1..] == [1] && Grown(v.acls, v1.acls);
    forall e: bool
      ensures Extended(v.acls, v1.acls, Ask(ip, port, tag, e), Direction(ListOf(v, 1), e), Direction(ListOf(v1, 1), e))
    {
      assert e == egress || e == !egress;
    }
    hide Extended, Grown;
  }

  lemma ShadowedAgain(v1: AclState, ip2: IP, port: Port, tag: string, egress: bool, ip1: IP)
    requires Sound(v1)
    requires v1 == AclState(map[1 := AclEntry("", []), 2 := PinholeAcl(ip1, port, tag, egress)],
                            map[1 := IfAcls([2, 1], if egress then 0 else 2)], [], 0)
    ensures Pinned(v1, v1, ip2, port, tag, 1)
  {
    hide PinholeRule;
    DirectionKnown(v1, 1);
    assert ListOf(v1, 1).acls == [2, 1];
    assert Direction(ListOf(v1, 1), egress) == [2, 1] && Direction(ListOf(v1, 1), !egress) == [];
    assert Tagged(v1.acls, [2, 1], tag) by { assert v1.acls[[2, 1][0]].tag == tag; }
  }

  /** Exactly when a pinhole serves its tunnel: there were lists and the tag was not among them, or the tunnel's packets
      passed anyway. */
  lemma TunnelServedIff(v: AclState, v': AclState, ip: IP, port: Port, swIfIndex: nat, egress: bool)
    requires Sound(v) && Sound(v') && Pinned(v, v', ip, port, TagOf(port), swIfIndex)
    ensures (forall p :: IsTunnelPacket(ip, port, egress, p) ==> Lets(v', swIfIndex, egress, p)) <==>
            Opens(v, swIfIndex, egress, TagOf(port)) || forall p :: IsTunnelPacket(ip, port, egress, p) ==> Lets(v, swIfIndex, egress, p)
  {
    hide TagOf, IsTunnelPacket, Opens, Pinned, Lets;
    forall p
      ensures Lets(v', swIfIndex, egress, p) <==>
              Lets(v, swIfIndex, egress, p) || (Opens(v, swIfIndex, egress, TagOf(port)) && IsTunnelPacket(ip, port, egress, p))
    {
      PinnedLets(v, v', ip, port, TagOf(port), swIfIndex, egress, p);
    }
  }

  // ---- The program ----

  datatype AclInterfaceSetAclList = AclInterfaceSetAclList(swIfIndex: nat, acls: seq<nat>, count: nat, nInput: nat)

  class Conn {
    const oracle: Oracle
    const interfaces: seq<Interface>
    var acls: map<nat, AclEntry>
    var lists: map<nat, IfAcls>
    var calls: nat

    constructor (oracle: Oracle, interfaces: seq<Interface>)
      ensures this.oracle == oracle && St() == AclState(map[], map[], interfaces, 0)
    {
      this.oracle, this.interfaces := oracle, interfaces;
      acls, lists, calls := map[], map[], 0;
    }

    ghost function St(): AclState
      reads this
    {
      AclState(acls, lists, interfaces, calls)
    }

    method Reply() returns (r: Vpp.Reply)
      modifies this`calls
      ensures St() == Called(old(St())) && r == oracle(old(calls))
    {
      r := oracle(calls);
      calls := calls + 1;
    }

    method ACLAddReplace(acl: AclAddReplace) returns (ok: bool, index: nat)
      modifies this
      ensures var r := oracle(old(calls));
              var v := Called(old(St()));
              ok == r.ok && index == Allocate(v.acls.Keys, r.hint)
              && St() == if ok then v.(acls := v.acls[index := AclEntry(acl.tag, acl.r[..])]) else v
    {
      var r := Reply();
      ok, index := r.ok, Allocate(acls.Keys, r.hint);
      if ok { acls := acls[index := AclEntry(acl.tag, acl.r[..])]; }
    }

    method ACLInterfaceSetACLList(list: AclInterfaceSetAclList) returns (ok: bool)
      requires list.count <= |list.acls|
      modifies this
      ensures var v := Called(old(St()));
              ok == oracle(old(calls)).ok
              && St() == if ok then v.(lists := v.lists[list.swIfIndex := IfAcls(list.acls[..list.count], list.nInput)]) else v
    {
      var r := Reply();
      ok := r.ok;
      if ok { lists := lists[list.swIfIndex := IfAcls(list.acls[..list.count], list.nInput)]; }
    }

    method TunnelIPSwIfIndex(tunnelIP: IP) returns (found: Option<nat>)
      modifies this`calls
      ensures (St(), found) == AfterLookup(oracle, old(St()), tunnelIP)
    {
      hide HasAddress;
      var r := Reply();
      if !r.ok { return None; }
      assert interfaces[0..] == interfaces;
      for i := 0 to |interfaces|
        invariant St().(calls := 0) == old(St()).(calls := 0)
        invariant AfterScan(oracle, St(), interfaces[i..], tunnelIP) == AfterScan(oracle, Called(old(St())), interfaces, tunnelIP)
      {
        assert interfaces[i..][0] == interfaces[i] && interfaces[i..][1..] == interfaces[i + 1..];
        r := Reply();
        if !r.ok { return None; }
        var has := InterfaceHasIP(interfaces[i], tunnelIP);
        if has { return Some(interfaces[i].swIfIndex); }
      }
      return None;
    }

    method InterfaceHasIP(details: Interface, tunnelIP: IP) returns (has: bool)
      ensures has <==> HasAddress(details, tunnelIP)
    {
      for k := 0 to |details.addresses|
        invariant forall j :: 0 <= j < k ==> !IsAddress(details.addresses[j], tunnelIP)
      {
        if IsAddress(details.addresses[k], tunnelIP) { return true; }
      }
      return false;
    }

    method AclDetails(aclIndeces: seq<nat>) returns (rv: Option<seq<Detail>>)
      modifies this`calls
      ensures (St(), rv) == AfterDetails(oracle, old(St()), aclIndeces)
    {
      var details: seq<Detail> := [];
      assert aclIndeces[0..] == aclIndeces;
      JoinedNothing(AfterDetails(oracle, St(), aclIndeces));
      for i := 0 to |aclIndeces|
        invariant OnlyCalls(old(St()), St())
        invariant Joined(details, AfterDetails(oracle, St(), aclIndeces[i..])) == AfterDetails(oracle, old(St()), aclIndeces)
      {
        assert aclIndeces[i..][0] == aclIndeces[i] && aclIndeces[i..][1..] == aclIndeces[i + 1..];
        var r := Reply();
        if !r.ok || aclIndeces[i] !in acls { return None; }
        JoinedMore(details, Detail(aclIndeces[i], acls[aclIndeces[i]].tag), AfterDetails(oracle, St(), aclIndeces[i + 1..]));
        details := details + [Detail(aclIndeces[i], acls[aclIndeces[i]].tag)];
      }
      assert details + [] == details;
      return Some(details);
    }

    method InterfacesACLDetails(swIfIndex: nat) returns (details: Option<(seq<Detail>, seq<Detail>)>)
      modifies this`calls
      ensures (St(), details) == AfterDump(oracle, old(St()), swIfIndex)
    {
      hide AfterDetails;
      var r := Reply();
      var l := ListOf(AclState(acls, lists, interfaces, calls), swIfIndex);
      if !r.ok || l.nInput > |l.acls| { return None; }
      var ingress := AclDetails(l.acls[..l.nInput]);
      if ingress.None? { return None; }
      var egress := AclDetails(l.acls[l.nInput..]);
      if egress.None? { return None; }
      return Some((ingress.value, egress.value));
    }

    method AddToACLToACLListIfNeeded(tunnelIP: IP, port: Port, tag: string, egress: bool, aclDetails: seq<Detail>)
      returns (indeces: Option<seq<nat>>)
      modifies this
      ensures (St(), indeces) == AfterExtend(oracle, old(St()), tunnelIP, port, tag, egress, aclDetails)
    {
      var foundACL, aclIndeces := FindTag(tag, aclDetails);
      if foundACL == None && |aclDetails| > 0 {
        var request := CreateACLAddReplace(tunnelIP, port, tag, egress);
        var ok, index := ACLAddReplace(request);
        if !ok { return None; }
        aclIndeces := [index] + aclIndeces;
      }
      return Some(aclIndeces);
    }

    /** The loop of `addToACLToACLListIfNeeded`. */
    method FindTag(tag: string, aclDetails: seq<Detail>) returns (foundACL: Option<Detail>, aclIndeces: seq<nat>)
      ensures aclIndeces == Indices(aclDetails)
      ensures foundACL.Some? <==> HasTag(aclDetails, tag)
    {
      foundACL, aclIndeces := None, [];
      assert !HasTag([], tag);
      hide HasTag;
      for i := 0 to |aclDetails|
        invariant aclIndeces == Indices(aclDetails[..i])
        invariant foundACL.Some? <==> HasTag(aclDetails[..i], tag)
      {
        aclIndeces := aclIndeces + [aclDetails[i].index];
        assert aclDetails[..i + 1] == aclDetails[..i] + [aclDetails[i]];
        HasTagAppend(aclDetails[..i], aclDetails[i], tag);
        if aclDetails[i].tag == tag { foundACL := Some(aclDetails[i]); }
      }
      assert aclDetails[..|aclDetails|] == aclDetails;
    }

    method Create(tunnelIP: IP, port: Port, tag: string) returns (ok: bool)
      modifies this
      ensures (St(), ok) == AfterCreate(oracle, old(St()), tunnelIP, port, tag)
    {
      hide AfterLookup, AfterDump, AfterInsert;
      if tunnelIP == [] || port == 0 { return true; }
      var swIfIndex := TunnelIPSwIfIndex(tunnelIP);
      if swIfIndex.None? { return false; }
      var details := InterfacesACLDetails(swIfIndex.value);
      if details.None? { return false; }
      ok := Insert(tunnelIP, port, tag, swIfIndex.value, details.value.0, details.value.1);
    }

    /** The second half of `create`. */
    method Insert(tunnelIP: IP, port: Port, tag: string, swIfIndex: nat, ingressACLs: seq<Detail>, egressACLs: seq<Detail>)
      returns (ok: bool)
      modifies this
      ensures (St(), ok) == AfterInsert(oracle, old(St()), tunnelIP, port, tag, swIfIndex, ingressACLs, egressACLs)
    {
      hide AfterExtend;
      var ingress := AddToACLToACLListIfNeeded(tunnelIP, port, tag, false, ingressACLs);
      if ingress.None? { return false; }
      var list := AclInterfaceSetAclList(swIfIndex, ingress.value, 0, Uint8(|ingress.value|));
      var egress := AddToACLToACLListIfNeeded(tunnelIP, port, tag, true, egressACLs);
      if egress.None? { return false; }
      list := list.(acls := list.acls + egress.value);
      list := list.(count := Uint8(|list.acls|));
      if list.count == Uint8(|ingressACLs| + |egressACLs|) { return true; }
      ok := ACLInterfaceSetACLList(list);
    }
  }

  method CreateACLAddReplace(tunnelIP: IP, port: Port, tag: string, egress: bool) returns (acl: AclAddReplace)
    ensures fresh(acl.r) && AclEntry(acl.tag, acl.r[..]) == PinholeAcl(tunnelIP, port, tag, egress)
  {
    hide ToVppPrefix;
    var defaultNet := IPNet(V4_IN_V6_PREFIX + [0, 0, 0, 0], CIDRMask(0, 32));
    var tunnelNet := IPNet(tunnelIP, CIDRMask(32, 32));
    if To4(tunnelIP) == None {
      defaultNet := IPNet(ZeroBytes(16), CIDRMask(0, 128));
      tunnelNet := IPNet(tunnelIP, CIDRMask(128, 128));
    }
    var r := new Rule[1][Rule(PERMIT, UDP, ToVppPrefix(defaultNet), ToVppPrefix(tunnelNet), 0, 65535, port, port)];
    if egress {
      r[0] := r[0].(src := ToVppPrefix(tunnelNet));
      r[0] := r[0].(dst := ToVppPrefix(defaultNet));
    }
    assert r[..] == [r[0]];
    return AclAddReplace(0xFFFF_FFFF, tag, 1, r);
  }

  /** What has been dumped, and then the rest. */
  function Joined(details: seq<Detail>, rest: (AclState, Option<seq<Detail>>)): (AclState, Option<seq<Detail>>) {
    (rest.0, if rest.1.None? then None else Some(details + rest.1.value))
  }

  lemma JoinedNothing(rest: (AclState, Option<seq<Detail>>))
    ensures Joined([], rest) == rest
  {
    assert rest.1.Some? ==> [] + rest.1.value == rest.1.value;
  }

  lemma JoinedMore(details: seq<Detail>, d: Detail, rest: (AclState, Option<seq<Detail>>))
    ensures Joined(details + [d], rest) == Joined(details, Joined([d], rest))
  {
    assert rest.1.Some? ==> details + [d] + rest.1.value == details + ([d] + rest.1.value);
  }

  lemma HasTagAppend(details: seq<Detail>, d: Detail, tag: string)
    ensures HasTag(details + [d], tag) <==> HasTag(details, tag) || d.tag == tag
  {
    var all := details + [d];
    assert all[|details|] == d;
    assert forall i :: 0 <= i < |details| ==> all[i] == details[i];
  }
}
