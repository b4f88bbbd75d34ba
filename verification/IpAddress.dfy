/** Putting a connection's addresses on its interface, by attempts that may stop half way
    (pkg/networkservice/connectioncontext/ipcontext/ipaddress/common.go). */
module IpAddress {
  import opened Wrappers
  import opened GoNet
  import opened IpTypes
  import opened Vpp

  /** The networks of a connection's two ends, None where there are none. */
  datatype IpContext = IpContext(srcIPNets: Option<seq<IPNet>>, dstIPNets: Option<seq<IPNet>>)

  /** The addresses of the interface, oldest first. */
  datatype State = State(addresses: seq<Prefix>, calls: nat)

  function Called(s: State): State {
    s.(calls := s.calls + 1)
  }

  // ---- Reading ----

  function IpsOf(addresses: seq<Prefix>, af: AddressFamily): seq<IP> {
    if addresses == [] then []
    else IpsOf(addresses[..|addresses| - 1], af) + OwnIp(addresses[|addresses| - 1], af)
  }

  function OwnIp(p: Prefix, af: AddressFamily): seq<IP> {
    if p.address.af == af then [FromVppPrefix(p).ip] else []
  }

  /** IPv4 first. */
  function Dumped(addresses: seq<Prefix>): seq<IP> {
    IpsOf(addresses, ADDRESS_IP4) + IpsOf(addresses, ADDRESS_IP6)
  }

  predicate HasIp(ips: seq<IP>, ip: IP) {
    exists i :: 0 <= i < |ips| && Equal(ips[i], ip)
  }

  predicate Installed(addresses: seq<Prefix>, ip: IP) {
    exists i :: 0 <= i < |addresses| && Equal(FromVppPrefix(addresses[i]).ip, ip)
  }

  // ---- Steps ----

  /** The IPv4 and the IPv6 dump may each fail. */
  function AfterDump(o: Oracle, s: State): (State, Option<seq<IP>>) {
    if !o(s.calls).ok then (Called(s), None)
    else if !o(s.calls + 1).ok then (Called(Called(s)), None)
    else (Called(Called(s)), Some(Dumped(s.addresses)))
  }

  function AfterAdd(o: Oracle, s: State, curIPs: seq<IP>, ipNets: seq<IPNet>): (State, bool)
    decreases |ipNets|
  {
    if ipNets == [] then (s, true)
    else if HasIp(curIPs, ipNets[0].ip) then AfterAdd(o, s, curIPs, ipNets[1..])
    else if !o(s.calls).ok then (Called(s), false)
    else AfterAdd(o, Called(s).(addresses := s.addresses + [ToVppPrefix(ipNets[0])]), curIPs, ipNets[1..])
  }

  function Removed(addresses: seq<Prefix>, p: Prefix): seq<Prefix> {
    if addresses == [] then []
    else if addresses[0] == p then Removed(addresses[1..], p)
    else [addresses[0]] + Removed(addresses[1..], p)
  }

  /** No caller asks for this branch. */
  function AfterDel(o: Oracle, s: State, ipNets: seq<IPNet>): (State, bool)
    decreases |ipNets|
  {
    if ipNets == [] then (s, true)
    else if !o(s.calls).ok then (Called(s), false)
    else AfterDel(o, Called(s).(addresses := Removed(s.addresses, ToVppPrefix(ipNets[0]))), ipNets[1..])
  }

  /** `addDel`; `ipNets` is None where the connection's context has none. */
  function AfterAddDel(o: Oracle, s: State, hasIfIndex: bool, ipNets: Option<seq<IPNet>>, isAdd: bool): (State, bool) {
    if !hasIfIndex then (s, false)
    else if ipNets.None? then (s, true)
    else if isAdd then
      var (s1, curIPs) := AfterDump(o, s);
      if curIPs.None? then (s1, false) else AfterAdd(o, s1, curIPs.value, ipNets.value)
    else AfterDel(o, s, ipNets.value)
  }

  lemma {:induction false} RemovedMembers(addresses: seq<Prefix>, p: Prefix, q: Prefix)
    ensures q in Removed(addresses, p) <==> q in addresses && q != p
  {
    if addresses != [] { RemovedMembers(addresses[1..], p, q); }
  }

  /** Removing, when no call fails, takes away exactly the requested networks. */
  lemma {:induction false} DeletesRequested(o: Oracle, s: State, ipNets: seq<IPNet>, q: Prefix)
    ensures var (s', ok) := AfterDel(o, s, ipNets);
            && (ok ==> (q in s'.addresses <==> q in s.addresses && forall n :: n in ipNets ==> ToVppPrefix(n) != q))
            && (q in s'.addresses ==> q in s.addresses)
    decreases |ipNets|
  {
    hide ToVppPrefix;
    if ipNets != [] {
      var p := ToVppPrefix(ipNets[0]);
      RemovedMembers(s.addresses, p, q);
      DeletesRequested(o, Called(s).(addresses := Removed(s.addresses, p)), ipNets[1..], q);
      assert forall n :: n in ipNets <==> n == ipNets[0] || n in ipNets[1..];
    }
  }

  lemma {:induction false} AddCalls(o: Oracle, s: State, curIPs: seq<IP>, ipNets: seq<IPNet>)
    ensures var (s', ok) := AfterAdd(o, s, curIPs, ipNets);
            && s'.calls >= s.calls && (ok <==> forall i :: s.calls <= i < s'.calls ==> o(i).ok)
            && |s'.addresses| - |s.addresses| == s'.calls - s.calls - if ok then 0 else 1
    decreases |ipNets|
  {
    hide HasIp, ToVppPrefix;
    if ipNets != [] {
      AddCalls(o, s, curIPs, ipNets[1..]);
      AddCalls(o, Called(s).(addresses := s.addresses + [ToVppPrefix(ipNets[0])]), curIPs, ipNets[1..]);
    }
  }

  /** Without an interface a call is an error, and without networks there is nothing to do; else it succeeds exactly if both
      dumps and every call that adds a network do. */
  lemma AddSucceedsIff(o: Oracle, s: State, hasIfIndex: bool, ipNets: Option<seq<IPNet>>)
    ensures var (s', ok) := AfterAddDel(o, s, hasIfIndex, ipNets, true);
            if !hasIfIndex || ipNets.None? then ok == hasIfIndex && s' == s
            else
              && (ok <==> o(s.calls).ok && o(s.calls + 1).ok && forall i :: s.calls + 2 <= i < s'.calls ==> o(i).ok)
              && (ok ==> s'.calls == s.calls + 2 + |s'.addresses| - |s.addresses|)
              && (!(o(s.calls).ok && o(s.calls + 1).ok) ==> s'.addresses == s.addresses)
  {
    hide AfterAdd, Dumped;
    if hasIfIndex && ipNets.Some? { AddCalls(o, Called(Called(s)), Dumped(s.addresses), ipNets.value); }
  }

  // ---- What is to be added ----

  /** The requested networks whose addresses the interface lacks. */
  function Missing(addresses: seq<Prefix>, ipNets: seq<IPNet>): seq<IPNet> {
    if ipNets == [] then []
    else if Installed(addresses, ipNets[0].ip) then Missing(addresses, ipNets[1..])
    else [ipNets[0]] + Missing(addresses, ipNets[1..])
  }

  function ToVppPrefixes(ipNets: seq<IPNet>): (ps: seq<Prefix>)
    ensures |ps| == |ipNets|
  {
    seq(|ipNets|, i requires 0 <= i < |ipNets| => ToVppPrefix(ipNets[i]))
  }

  /** All addresses are of the lengths that addresses have. */
  predicate AllWellFormed(ipNets: seq<IPNet>) {
    forall i :: 0 <= i < |ipNets| ==> WellFormed(ipNets[i].ip)
  }

  predicate PairwiseDistinct(ipNets: seq<IPNet>) {
    forall i, j :: 0 <= i < j < |ipNets| ==> !Equal(ipNets[i].ip, ipNets[j].ip)
  }

  /** `now` is `before` and the first of the missing networks, all of them after a success. */
  ghost predicate Progress(before: seq<Prefix>, now: seq<Prefix>, missing: seq<IPNet>, ok: bool) {
    && |before| <= |now| <= |before| + |missing|
    && now == before + ToVppPrefixes(missing)[..|now| - |before|]
    && (ok ==> |now| == |before| + |missing|)
  }

  lemma {:induction false} DumpIsComplete(addresses: seq<Prefix>, ip: IP)
    ensures HasIp(Dumped(addresses), ip) <==> Installed(addresses, ip)
  {
    hide Equal, FromVppPrefix;
    HasIpConcat(IpsOf(addresses, ADDRESS_IP4), IpsOf(addresses, ADDRESS_IP6), ip);
    if addresses != [] {
      var last := |addresses| - 1;
      var init, p := addresses[..last], addresses[last];
      DumpIsComplete(init, ip);
      HasIpConcat(IpsOf(init, ADDRESS_IP4), IpsOf(init, ADDRESS_IP6), ip);
      HasIpConcat(IpsOf(init, ADDRESS_IP4), OwnIp(p, ADDRESS_IP4), ip);
      HasIpConcat(IpsOf(init, ADDRESS_IP6), OwnIp(p, ADDRESS_IP6), ip);
      InstalledAppend(init, p, ip);
      assert addresses == init + [p];
      assert HasIp(OwnIp(p, p.address.af), ip) <==> Equal(FromVppPrefix(p).ip, ip) by {
        assert OwnIp(p, p.address.af)[0] == FromVppPrefix(p).ip;
      }
      hide HasIp, Installed;
    }
  }

  lemma HasIpConcat(a: seq<IP>, b: seq<IP>, ip: IP)
    ensures HasIp(a + b, ip) <==> HasIp(a, ip) || HasIp(b, ip)
  {
    hide Equal;
    assert forall i :: 0 <= i < |b| ==> (a + b)[|a| + i] == b[i];
    assert forall i :: 0 <= i < |a| ==> (a + b)[i] == a[i];
  }

  lemma InstalledAppend(addresses: seq<Prefix>, p: Prefix, ip: IP)
    ensures Installed(addresses + [p], ip) <==> Installed(addresses, ip) || Equal(FromVppPrefix(p).ip, ip)
  {
    hide Equal, FromVppPrefix;
    assert (addresses + [p])[|addresses|] == p;
    assert forall i :: 0 <= i < |addresses| ==> (addresses + [p])[i] == addresses[i];
  }

  /** One attempt adds missing networks in their order, up to the first call that fails. */
  lemma {:induction false} AddProgress(o: Oracle, s: State, curIPs: seq<IP>, before: seq<Prefix>, ipNets: seq<IPNet>)
    requires forall ip :: HasIp(curIPs, ip) <==> Installed(before, ip)
    ensures var (s', ok) := AfterAdd(o, s, curIPs, ipNets);
            Progress(s.addresses, s'.addresses, Missing(before, ipNets), ok)
    decreases |ipNets|
  {
    hide HasIp, Installed, ToVppPrefix;
    if ipNets != [] {
      if HasIp(curIPs, ipNets[0].ip) {
        AddProgress(o, s, curIPs, before, ipNets[1..]);
      } else {
        var s1 := Called(s).(addresses := s.addresses + [ToVppPrefix(ipNets[0])]);
        AddProgress(o, s1, curIPs, before, ipNets[1..]);
        var (s', ok) := AfterAdd(o, s1, curIPs, ipNets[1..]);
        OneMoreMissing(s.addresses, s'.addresses, ipNets[0], Missing(before, ipNets[1..]), ok);
      }
    }
  }

  lemma OneMoreMissing(before: seq<Prefix>, now: seq<Prefix>, first: IPNet, rest: seq<IPNet>, ok: bool)
    requires Progress(before + [ToVppPrefix(first)], now, rest, ok)
    ensures Progress(before, now, [first] + rest, ok)
  {
    hide ToVppPrefix;
    assert ToVppPrefixes([first] + rest) == [ToVppPrefix(first)] + ToVppPrefixes(rest);
  }

  /** The address that a requested network gets is the requested one. */
  lemma InstalledAsRequested(net: IPNet, ip: IP)
    requires WellFormed(net.ip) && WellFormed(ip)
    ensures Equal(FromVppPrefix(ToVppPrefix(net)).ip, ip) <==> Equal(net.ip, ip)
  {
    RoundTripAddress(net.ip);
    var back := FromVppAddress(ToVppAddress(net.ip));
    assert WellFormed(back);
    ToVppAddressRespectsEqual(back, ip);
    ToVppAddressRespectsEqual(net.ip, ip);
    ToVppAddressRespectsEqual(back, net.ip);
    hide Equal, ToVppAddress, FromVppAddress;
  }

  predicate Among(ipNets: seq<IPNet>, ip: IP) {
    exists i :: 0 <= i < |ipNets| && Equal(ipNets[i].ip, ip)
  }

  /** What is installed once some networks have been added. */
  lemma {:induction false} InstalledAfter(addresses: seq<Prefix>, added: seq<IPNet>, ip: IP)
    requires WellFormed(ip) && forall i :: 0 <= i < |added| ==> WellFormed(added[i].ip)
    ensures Installed(addresses + ToVppPrefixes(added), ip) <==> Installed(addresses, ip) || Among(added, ip)
  {
    hide Equal, Installed, ToVppPrefix, FromVppPrefix, WellFormed;
    if added == [] {
      assert addresses + ToVppPrefixes(added) == addresses;
    } else {
      var last := |added| - 1;
      var init, net := added[..last], added[last];
      assert addresses + ToVppPrefixes(added) == (addresses + ToVppPrefixes(init)) + [ToVppPrefix(net)];
      InstalledAfter(addresses, init, ip);
      InstalledAppend(addresses + ToVppPrefixes(init), ToVppPrefix(net), ip);
      InstalledAsRequested(net, ip);
      assert forall i :: 0 <= i < last ==> init[i] == added[i];
    }
  }

  /** The networks whose addresses are not among the added ones. */
  function Lacking(ipNets: seq<IPNet>, added: seq<IPNet>): (lacking: seq<IPNet>)
    ensures |lacking| <= |ipNets|
  {
    if ipNets == [] then []
    else if Among(added, ipNets[0].ip) then Lacking(ipNets[1..], added)
    else [ipNets[0]] + Lacking(ipNets[1..], added)
  }

  lemma {:induction false} LackingConcat(a: seq<IPNet>, b: seq<IPNet>, added: seq<IPNet>)
    ensures Lacking(a + b, added) == Lacking(a, added) + Lacking(b, added)
  {
    hide Among;
    if a == [] {
      assert a + b == b;
    } else {
      assert (a + b)[1..] == a[1..] + b;
      LackingConcat(a[1..], b, added);
    }
  }

  lemma {:induction false} LackingNothing(ipNets: seq<IPNet>, added: seq<IPNet>)
    requires forall i :: 0 <= i < |ipNets| ==> Among(added, ipNets[i].ip)
    ensures Lacking(ipNets, added) == []
  {
    hide Among;
    if ipNets != [] { LackingNothing(ipNets[1..], added); }
  }

  lemma {:induction false} LackingEverything(ipNets: seq<IPNet>, added: seq<IPNet>)
    requires forall i :: 0 <= i < |ipNets| ==> !Among(added, ipNets[i].ip)
    ensures Lacking(ipNets, added) == ipNets
  {
    hide Among;
    if ipNets != [] { LackingEverything(ipNets[1..], added); }
  }

  /** What is missing once some networks have been added. */
  lemma {:induction false} MissingIsLacking(before: seq<Prefix>, now: seq<Prefix>, ipNets: seq<IPNet>, added: seq<IPNet>)
    requires forall i :: 0 <= i < |ipNets| ==>
      (Installed(now, ipNets[i].ip) <==> Installed(before, ipNets[i].ip) || Among(added, ipNets[i].ip))
    ensures Missing(now, ipNets) == Lacking(Missing(before, ipNets), added)
  {
    hide Installed, Among;
    if ipNets != [] {
      var rest := ipNets[1..];
      forall i | 0 <= i < |rest|
        ensures Installed(now, rest[i].ip) <==> Installed(before, rest[i].ip) || Among(added, rest[i].ip)
      {
        assert rest[i] == ipNets[i + 1];
      }
      MissingIsLacking(before, now, rest, added);
    }
  }

  lemma AmongItself(ipNets: seq<IPNet>)
    ensures forall i :: 0 <= i < |ipNets| ==> Among(ipNets, ipNets[i].ip)
  {
    forall i | 0 <= i < |ipNets|
      ensures Among(ipNets, ipNets[i].ip)
    {
      assert Equal(ipNets[i].ip, ipNets[i].ip);
    }
  }

  lemma {:induction false} LackingOwnFront(ipNets: seq<IPNet>, n: nat)
    requires n <= |ipNets|
    ensures Lacking(ipNets, ipNets[..n]) == Lacking(ipNets[n..], ipNets[..n])
  {
    hide Among, Lacking;
    var front := ipNets[..n];
    AmongItself(front);
    LackingNothing(front, front);
    LackingConcat(front, ipNets[n..], front);
    assert front + ipNets[n..] == ipNets;
  }

  // ---- Attempts ----

  /** A number of attempts, one after the other, and whether the last succeeded. */
  function AfterAttempts(o: Oracle, s: State, ipNets: seq<IPNet>, n: nat): (State, bool) {
    if n == 0 then (s, false) else AfterAddDel(o, AfterAttempts(o, s, ipNets, n - 1).0, true, Some(ipNets), true)
  }

  lemma AttemptProgress(o: Oracle, s: State, ipNets: seq<IPNet>)
    ensures var (s', ok) := AfterAddDel(o, s, true, Some(ipNets), true);
            Progress(s.addresses, s'.addresses, Missing(s.addresses, ipNets), ok)
  {
    hide HasIp, Installed, ToVppPrefix, IpsOf;
    forall ip
      ensures HasIp(Dumped(s.addresses), ip) <==> Installed(s.addresses, ip)
    {
      DumpIsComplete(s.addresses, ip);
    }
    var (s1, curIPs) := AfterDump(o, s);
    if curIPs.Some? { AddProgress(o, s1, curIPs.value, s.addresses, ipNets); }
    assert s.addresses == s.addresses + ToVppPrefixes(Missing(s.addresses, ipNets))[..0];
  }

  lemma {:induction false} MissingIsRequested(addresses: seq<Prefix>, ipNets: seq<IPNet>)
    ensures forall net :: net in Missing(addresses, ipNets) ==> net in ipNets
    ensures AllWellFormed(ipNets) ==> forall net :: net in Missing(addresses, ipNets) ==> WellFormed(net.ip)
  {
    hide Installed, WellFormed;
    if ipNets != [] {
      MissingIsRequested(addresses, ipNets[1..]);
      assert ipNets == [ipNets[0]] + ipNets[1..];
    }
  }

  /** Having added some of the missing networks, the interface lacks those of the rest whose addresses are not among them. */
  lemma {:induction false} NowMissing(before: seq<Prefix>, now: seq<Prefix>, ipNets: seq<IPNet>, ok: bool)
    requires AllWellFormed(ipNets) && Progress(before, now, Missing(before, ipNets), ok)
    ensures var missing, n := Missing(before, ipNets), |now| - |before|;
            Missing(now, ipNets) == Lacking(missing[n..], missing[..n])
  {
    var missing, n := Missing(before, ipNets), |now| - |before|;
    hide Installed, Among, Missing, WellFormed, Lacking;
    var added := missing[..n];
    MissingIsRequested(before, ipNets);
    assert ToVppPrefixes(missing)[..n] == ToVppPrefixes(added);
    forall i | 0 <= i < |ipNets|
      ensures Installed(now, ipNets[i].ip) <==> Installed(before, ipNets[i].ip) || Among(added, ipNets[i].ip)
    {
      InstalledAfter(before, added, ipNets[i].ip);
    }
    MissingIsLacking(before, now, ipNets, added);
    LackingOwnFront(missing, n);
  }

  lemma {:induction false} RestIsMissing(before: seq<Prefix>, now: seq<Prefix>, ipNets: seq<IPNet>, ok: bool)
    requires AllWellFormed(ipNets) && Progress(before, now, Missing(before, ipNets), ok)
    requires PairwiseDistinct(Missing(before, ipNets))
    ensures Missing(now, ipNets) == Missing(before, ipNets)[|now| - |before|..]
  {
    var missing, n := Missing(before, ipNets), |now| - |before|;
    hide Missing, AllWellFormed, Equal, Lacking;
    NowMissing(before, now, ipNets, ok);
    LackingEverything(missing[n..], missing[..n]);
  }

  lemma ProgressTwice(before: seq<Prefix>, mid: seq<Prefix>, now: seq<Prefix>, missing: seq<IPNet>, ok1: bool, ok2: bool)
    requires Progress(before, mid, missing, ok1) && Progress(mid, now, missing[|mid| - |before|..], ok2)
    ensures Progress(before, now, missing, ok2)
    ensures ok1 ==> now == mid
  {
    hide ToVppPrefix;
    var n := |mid| - |before|;
    assert ToVppPrefixes(missing)[n..] == ToVppPrefixes(missing[n..]);
  }

  lemma NoProgress(addresses: seq<Prefix>, missing: seq<IPNet>)
    ensures Progress(addresses, addresses, missing, false)
  {
    assert addresses == addresses + ToVppPrefixes(missing)[..0];
  }

  /** If no two of the missing networks have one address: after any number of attempts the interface has its old
      addresses and the first of the missing ones, each added once in the whole run; after a success it has all of them. */
  lemma {:induction false} AttemptsProgress(o: Oracle, s: State, ipNets: seq<IPNet>, n: nat)
    requires AllWellFormed(ipNets) && PairwiseDistinct(Missing(s.addresses, ipNets))
    ensures var (s', ok) := AfterAttempts(o, s, ipNets, n);
            Progress(s.addresses, s'.addresses, Missing(s.addresses, ipNets), ok)
  {
    hide ToVppPrefix, PairwiseDistinct, AllWellFormed, Missing, Progress, AfterAddDel;
    if n == 0 {
      NoProgress(s.addresses, Missing(s.addresses, ipNets));
    } else {
      AttemptsProgress(o, s, ipNets, n - 1);
      var (s1, ok1) := AfterAttempts(o, s, ipNets, n - 1);
      AttemptProgress(o, s1, ipNets);
      RestIsMissing(s.addresses, s1.addresses, ipNets, ok1);
      var (s2, ok2) := AfterAddDel(o, s1, true, Some(ipNets), true);
      ProgressTwice(s.addresses, s1.addresses, s2.addresses, Missing(s.addresses, ipNets), ok1, ok2);
    }
  }

  /** After a success every requested address is installed, and a further call, whatever it meets, adds nothing. */
  lemma SuccessIsFinal(o: Oracle, s: State, ipNets: seq<IPNet>, n: nat)
    requires AllWellFormed(ipNets) && AfterAttempts(o, s, ipNets, n).1
    ensures AfterAttempts(o, s, ipNets, n + 1).0.addresses == AfterAttempts(o, s, ipNets, n).0.addresses
    ensures forall i :: 0 <= i < |ipNets| ==> Installed(AfterAttempts(o, s, ipNets, n).0.addresses, ipNets[i].ip)
  {
    hide Missing, Installed, AfterAddDel;
    var s0, s1 := AfterAttempts(o, s, ipNets, n - 1).0, AfterAttempts(o, s, ipNets, n).0;
    AttemptProgress(o, s0, ipNets);
    NowMissing(s0.addresses, s1.addresses, ipNets, true);
    assert Missing(s1.addresses, ipNets) == [];
    NothingMissing(s1.addresses, ipNets);
    AttemptProgress(o, s1, ipNets);
  }

  lemma {:induction false} NothingMissing(addresses: seq<Prefix>, ipNets: seq<IPNet>)
    ensures Missing(addresses, ipNets) == [] <==> forall i :: 0 <= i < |ipNets| ==> Installed(addresses, ipNets[i].ip)
  {
    hide Installed;
    if ipNets != [] {
      NothingMissing(addresses, ipNets[1..]);
      assert ipNets == [ipNets[0]] + ipNets[1..];
    }
  }

  // ---- Exactly when the failures do not matter ----

  /** All missing networks have been added, each once, when the attempts have come to a success. */
  ghost predicate AddsEachOnce(o: Oracle, s: State, ipNets: seq<IPNet>, n: nat) {
    AfterAttempts(o, s, ipNets, n).1 ==>
      AfterAttempts(o, s, ipNets, n).0.addresses == s.addresses + ToVppPrefixes(Missing(s.addresses, ipNets))
  }

  lemma {:induction false} AddSucceeds(o: Oracle, s: State, curIPs: seq<IP>, ipNets: seq<IPNet>)
    requires forall i :: i >= s.calls ==> o(i).ok
    ensures AfterAdd(o, s, curIPs, ipNets).1
    decreases |ipNets|
  {
    hide HasIp, ToVppPrefix;
    if ipNets != [] {
      AddSucceeds(o, s, curIPs, ipNets[1..]);
      AddSucceeds(o, Called(s).(addresses := s.addresses + [ToVppPrefix(ipNets[0])]), curIPs, ipNets[1..]);
    }
  }

  /** Adding up to the call that fails. */
  lemma {:induction false} AddUpTo(o: Oracle, s: State, curIPs: seq<IP>, before: seq<Prefix>, ipNets: seq<IPNet>, n: nat)
    requires forall ip :: HasIp(curIPs, ip) <==> Installed(before, ip)
    requires n < |Missing(before, ipNets)| && forall i :: i >= s.calls ==> (o(i).ok <==> i != s.calls + n)
    ensures AfterAdd(o, s, curIPs, ipNets) ==
            (State(s.addresses + ToVppPrefixes(Missing(before, ipNets)[..n]), s.calls + n + 1), false)
    decreases |ipNets|
  {
    hide HasIp, Installed, ToVppPrefix;
    if HasIp(curIPs, ipNets[0].ip) {
      AddUpTo(o, s, curIPs, before, ipNets[1..], n);
    } else if n > 0 {
      var p, rest := ToVppPrefix(ipNets[0]), Missing(before, ipNets[1..]);
      AddUpTo(o, Called(s).(addresses := s.addresses + [p]), curIPs, before, ipNets[1..], n - 1);
      assert ([ipNets[0]] + rest)[..n] == [ipNets[0]] + rest[..n - 1];
      assert ToVppPrefixes([ipNets[0]] + rest[..n - 1]) == [p] + ToVppPrefixes(rest[..n - 1]);
      assert s.addresses + [p] + ToVppPrefixes(rest[..n - 1]) == s.addresses + ([p] + ToVppPrefixes(rest[..n - 1]));
    } else {
      assert s.addresses + ToVppPrefixes(Missing(before, ipNets)[..0]) == s.addresses;
    }
  }

  /** The first attempt fails at the network with a repeated address, and the second takes that address for installed. */
  lemma {:induction false} RepeatedIsSkipped(o: Oracle, s: State, ipNets: seq<IPNet>, i: nat, j: nat)
    requires AllWellFormed(ipNets) && i < j < |Missing(s.addresses, ipNets)|
    requires Equal(Missing(s.addresses, ipNets)[i].ip, Missing(s.addresses, ipNets)[j].ip)
    requires forall k :: k >= s.calls ==> (o(k).ok <==> k != s.calls + 2 + j)
    ensures !AddsEachOnce(o, s, ipNets, 2)
  {
    var missing := Missing(s.addresses, ipNets);
    hide Missing, Installed, HasIp, ToVppPrefix, Dumped, AllWellFormed, Equal;
    forall ip
      ensures HasIp(Dumped(s.addresses), ip) <==> Installed(s.addresses, ip)
    {
      DumpIsComplete(s.addresses, ip);
    }
    AddUpTo(o, Called(Called(s)), Dumped(s.addresses), s.addresses, ipNets, j);
    var s1 := State(s.addresses + ToVppPrefixes(missing[..j]), s.calls + 3 + j);
    assert AfterAttempts(o, s, ipNets, 1) == (s1, false) by {
      assert AfterAttempts(o, s, ipNets, 0).0 == s;
    }
    AddSucceeds(o, Called(Called(s1)), Dumped(s1.addresses), ipNets);
    assert AfterAttempts(o, s, ipNets, 2).1;
    AttemptProgress(o, s1, ipNets);
    NowMissing(s.addresses, s1.addresses, ipNets, false);
    assert Among(missing[..j], missing[j..][0].ip) by {
      assert missing[..j][i] == missing[i];
    }
    assert |Missing(s1.addresses, ipNets)| < |missing| - j;
  }

  /** For every pattern of failures a run of attempts that ends in a success has added each missing network once, exactly
      if no two of the missing networks have one address. */
  lemma AddsEachOnceIff(s: State, ipNets: seq<IPNet>)
    requires AllWellFormed(ipNets)
    ensures (forall o, n :: AddsEachOnce(o, s, ipNets, n)) <==> PairwiseDistinct(Missing(s.addresses, ipNets))
  {
    var missing := Missing(s.addresses, ipNets);
    hide Missing, AllWellFormed, Equal, AfterAttempts;
    if PairwiseDistinct(missing) {
      forall o, n
        ensures AddsEachOnce(o, s, ipNets, n)
      {
        AttemptsProgress(o, s, ipNets, n);
      }
    } else {
      var i, j :| 0 <= i < j < |missing| && Equal(missing[i].ip, missing[j].ip);
      RepeatedIsSkipped((k: nat) => Reply(k != s.calls + 2 + j, 0), s, ipNets, i, j);
    }
  }

  // ---- The program ----

  class Conn {
    const oracle: Oracle
    var addresses: seq<Prefix>
    var calls: nat

    constructor (oracle: Oracle, addresses: seq<Prefix>)
      ensures this.oracle == oracle && St() == State(addresses, 0)
    {
      this.oracle := oracle;
      this.addresses, calls := addresses, 0;
    }

    ghost function St(): State
      reads this
    {
      State(addresses, calls)
    }

    method SwInterfaceAddDelAddress(isAdd: bool, prefix: Prefix) returns (ok: bool)
      modifies this
      ensures ok == oracle(old(calls)).ok
      ensures var s := Called(old(St()));
              St() == if !ok then s
                      else s.(addresses := if isAdd then s.addresses + [prefix] else Removed(s.addresses, prefix))
    {
      ok := oracle(calls).ok;
      calls := calls + 1;
      if ok { addresses := if isAdd then addresses + [prefix] else Removed(addresses, prefix); }
    }

    /** The addresses of one family. */
    method IPAddressDump(af: AddressFamily) returns (ips: Option<seq<IP>>)
      modifies this`calls
      ensures St() == Called(old(St())) && ips == if oracle(old(calls)).ok then Some(IpsOf(addresses, af)) else None
    {
      hide FromVppPrefix;
      var ok := oracle(calls).ok;
      calls := calls + 1;
      if !ok { return None; }
      var found: seq<IP> := [];
      for i := 0 to |addresses|
        invariant St() == Called(old(St())) && found == IpsOf(addresses[..i], af)
      {
        assert addresses[..i + 1][..i] == addresses[..i];
        if addresses[i].address.af == af { found := found + [FromVppPrefix(addresses[i]).ip]; }
      }
      assert addresses[..|addresses|] == addresses;
      return Some(found);
    }

    method DumpIps() returns (ips: Option<seq<IP>>)
      modifies this`calls
      ensures (St(), ips) == AfterDump(oracle, old(St()))
    {
      hide IpsOf;
      var v4 := IPAddressDump(ADDRESS_IP4);
      if v4.None? { return None; }
      var v6 := IPAddressDump(ADDRESS_IP6);
      if v6.None? { return None; }
      return Some(v4.value + v6.value);
    }

    method Has(curIPs: seq<IP>, ip: IP) returns (has: bool)
      ensures has <==> HasIp(curIPs, ip)
    {
      hide Equal;
      has := false;
      for i := 0 to |curIPs|
        invariant forall j :: 0 <= j < i ==> !Equal(curIPs[j], ip)
      {
        if Equal(curIPs[i], ip) { return true; }
      }
    }

    /** The client's interface gets the source networks, the server's the destination networks. */
    method AddDel(hasIfIndex: bool, context: IpContext, isClient: bool, isAdd: bool) returns (ok: bool)
      modifies this
      ensures (St(), ok) ==
              AfterAddDel(oracle, old(St()), hasIfIndex, if isClient then context.srcIPNets else context.dstIPNets, isAdd)
    {
      hide AfterAdd, AfterDel, AfterDump;
      if !hasIfIndex { return false; }
      var ipNets := context.dstIPNets;
      if isClient { ipNets := context.srcIPNets; }
      if ipNets.None? { return true; }
      if isAdd {
        var curIPs := DumpIps();
        if curIPs.None? { return false; }
        ok := AddLoop(ipNets.value, curIPs.value);
      } else {
        ok := DelLoop(ipNets.value);
      }
    }

    /** The loop over the requested networks, when adding. */
    method AddLoop(ipNets: seq<IPNet>, curIPs: seq<IP>) returns (ok: bool)
      modifies this
      ensures (St(), ok) == AfterAdd(oracle, old(St()), curIPs, ipNets)
    {
      hide HasIp, ToVppPrefix;
      ghost var start := St();
      assert ipNets[0..] == ipNets;
      ok := true;
      for i := 0 to |ipNets|
        invariant ok && AfterAdd(oracle, St(), curIPs, ipNets[i..]) == AfterAdd(oracle, start, curIPs, ipNets)
      {
        assert ipNets[i..][0] == ipNets[i] && ipNets[i..][1..] == ipNets[i + 1..];
        var has := Has(curIPs, ipNets[i].ip);
        if !has {
          ok := SwInterfaceAddDelAddress(true, ToVppPrefix(ipNets[i]));
          if !ok { return; }
        }
      }
    }

    /** The same loop when deleting. */
    method DelLoop(ipNets: seq<IPNet>) returns (ok: bool)
      modifies this
      ensures (St(), ok) == AfterDel(oracle, old(St()), ipNets)
    {
      hide ToVppPrefix, Removed;
      ghost var start := St();
      assert ipNets[0..] == ipNets;
      ok := true;
      for i := 0 to |ipNets|
        invariant ok && AfterDel(oracle, St(), ipNets[i..]) == AfterDel(oracle, start, ipNets)
      {
        assert ipNets[i..][0] == ipNets[i] && ipNets[i..][1..] == ipNets[i + 1..];
        ok := SwInterfaceAddDelAddress(false, ToVppPrefix(ipNets[i]));
        if !ok { return; }
      }
    }
  }
}
