/** When the VLAN client's search by name serves the bridges: exactly when the names are apart, or there are not two server
    interfaces, so that no two connections are open at a time. */
module VlanNames {
  import opened Collections
  import opened Wrappers
  import opened Vpp
  import opened L2Vpp
  import opened L2BridgeDomain
  import opened Vlan
  import opened VlanBridge

  // ---- One search ----

  /** Only the devices' own sub-interfaces have been added to the interfaces `start`. */
  ghost predicate OwnSubIfsAdded(devices: Devices, start: Interfaces, interfaces: Interfaces) {
    && (forall i :: i in start ==> i in interfaces && interfaces[i] == start[i])
    && (forall d :: d in devices ==> devices[d] in start)
    && forall i :: i in interfaces && interfaces[i].ifType == SUB ==> IsSomeSubIf(devices, start, interfaces[i])
  }

  ghost predicate IsSomeSubIf(devices: Devices, start: Interfaces, details: IfDetails) {
    exists d, vlanID: nat :: d in devices && devices[d] in start && IsVlanId(vlanID) && details == SubIfOf(devices, start, d, vlanID)
  }

  /** A search finds no sub-interface but the device's own. */
  ghost predicate FindsOwn(devices: Devices, start: Interfaces, interfaces: Interfaces, device: string, vlanID: nat, f: Found) {
    device in devices && devices[device] in start && FoundIn(interfaces, device, vlanID, f) && f.sub.Some? ==>
      interfaces[f.sub.value] == SubIfOf(devices, start, device, vlanID)
  }

  lemma FindsOwnIfApart(devices: Devices, start: Interfaces, interfaces: Interfaces, device: string, vlanID: nat, f: Found)
    requires NamesApart(devices, start) && OwnSubIfsAdded(devices, start, interfaces)
    ensures FindsOwn(devices, start, interfaces, device, vlanID, f)
  {
    hide Contains, SubIfName;
    if device in devices && FoundIn(interfaces, device, vlanID, f) && f.sub.Some? {
      var details := interfaces[f.sub.value];
      assert IsSomeSubIf(devices, start, details);
      var e, v: nat :| e in devices && devices[e] in start && IsVlanId(v) && details == SubIfOf(devices, start, e, v);
      assert v == vlanID;
    }
  }

  lemma MisledUnlessApart(devices: Devices, start: Interfaces, d: string, e: string, vlanID: nat, extra: IfIndex) returns (interfaces: Interfaces)
    requires forall x :: x in devices ==> devices[x] in start
    requires forall i :: i in start ==> start[i].ifType == HARDWARE
    requires forall x, i :: x in devices && i in start && IsHost(start[i], x) ==> i == devices[x]
    requires d in devices && e in devices && IsHost(start[devices[d]], d) && devices[d] != devices[e]
    requires IsVlanId(vlanID) && Contains(SubIfName(start[devices[e]].name, vlanID), d) && extra !in start
    ensures OwnSubIfsAdded(devices, start, interfaces)
    ensures !FindsOwn(devices, start, interfaces, d, vlanID, Found(Some(extra), None))
  {
    hide Contains;
    var sub := SubIfOf(devices, start, e, vlanID);
    interfaces := start[extra := sub];
    assert IsSomeSubIf(devices, start, sub);
    assert FoundIn(interfaces, d, vlanID, Found(Some(extra), None));
    SameSubIfName(start[devices[d]].name, start[devices[e]].name, vlanID);
    assert start[devices[d]].name != start[devices[e]].name;
  }

  lemma SameSubIfName(a: string, b: string, vlanID: nat)
    ensures SubIfName(a, vlanID) == SubIfName(b, vlanID) ==> a == b
  {
    var suffix := "." + Digits(vlanID);
    assert SubIfName(a, vlanID) == a + suffix && SubIfName(b, vlanID) == b + suffix;
    if a + suffix == b + suffix {
      assert (a + suffix)[..|a|] == a && (b + suffix)[..|b|] == b;
    }
  }

  /** A search by name finds a device's own sub-interface or none, whichever of the devices' sub-interfaces exist and in
      whatever order VPP lists them, exactly if the names are apart. */
  lemma FindsOwnIff(devices: Devices, start: Interfaces)
    requires forall x :: x in devices ==> devices[x] in start && IsHost(start[devices[x]], x)
    requires forall i :: i in start ==> start[i].ifType == HARDWARE
    requires forall x, i :: x in devices && i in start && IsHost(start[i], x) ==> i == devices[x]
    ensures (forall interfaces, device, vlanID, f :: OwnSubIfsAdded(devices, start, interfaces) ==>
               FindsOwn(devices, start, interfaces, device, vlanID, f))
            <==> NamesApart(devices, start)
  {
    hide Contains, SubIfName, OwnSubIfsAdded, FindsOwn;
    if NamesApart(devices, start) {
      forall interfaces, device, vlanID, f | OwnSubIfsAdded(devices, start, interfaces)
        ensures FindsOwn(devices, start, interfaces, device, vlanID, f)
      {
        FindsOwnIfApart(devices, start, interfaces, device, vlanID, f);
      }
    } else {
      var d, e, vlanID: nat :|
        && d in devices && e in devices && IsVlanId(vlanID) && devices[e] in start && devices[d] != devices[e]
        && Contains(SubIfName(start[devices[e]].name, vlanID), d);
      var _ := MisledUnlessApart(devices, start, d, e, vlanID, FirstFree(start.Keys, 1));
    }
  }

  /** Device names that are not substrings of each other do not suffice: the search for a sub-interface of
      device "10" on VLAN 100 accepts the one of device "eth0". */
  lemma SubstringFreeNamesDoNotSuffice()
    ensures !Contains("eth0", "10") && !Contains("10", "eth0")
    ensures IsSub(IfDetails(SubIfName("host-eth0", 100), SUB, 100), "10", 100)
  {
    assert Digits(1) == "1";
    assert Digits(10) == "10";
    assert Digits(100) == "100";
    assert SubIfName("host-eth0", 100) == "host-eth0.100";
    assert OccursAt("host-eth0.100", "10", 10);
    forall i | 0 <= i <= 4
      ensures !OccursAt("eth0", "10", i)
    {
      if i <= 2 { assert "eth0"[i..i + 2][0] == "eth0"[i] != "10"[0]; }
    }
  }

  // ---- Runs ----

  /** Before the first request: the devices' host interfaces are in place, and there is no sub-interface. */
  ghost predicate InPlace(devices: Devices, start: Interfaces) {
    && (forall d :: d in devices ==> devices[d] != 0 && devices[d] in start && IsHost(start[devices[d]], d))
    && (forall d, i :: d in devices && i in start && IsHost(start[i], d) ==> i == devices[d])
    && (forall i :: i in start ==> start[i].ifType == HARDWARE)
  }

  ghost predicate IsStart(devices: Devices, v: L2State) {
    InPlace(devices, v.interfaces) && v.domains == {} && v.member == map[]
  }

  ghost predicate TwoServers(devices: Devices, start: Interfaces) {
    exists a, b :: a != b && IsServerInterface(devices, start, a) && IsServerInterface(devices, start, b)
  }

  /** What the bridges are for: every connection has its own interfaces, and bridges and sub-interfaces are those of the
      open connections. */
  ghost predicate Kept(devices: Devices, sys: Sys) {
    && ConnsTidy(devices, sys.s.v.interfaces, sys.conns)
    && SubIfsTidy(sys.s.v.interfaces, sys.conns)
    && BridgesTidy(sys.s.bridges, sys.conns)
  }

  ghost predicate AlwaysKept(devices: Devices, v: L2State) {
    forall o, actions :: NeverFails(o) && AllowedRun(o, devices, Before(v), actions) ==> Kept(devices, VlanBridge.Run(o, devices, Before(v), actions))
  }

  /** Nothing has been requested. */
  function Before(v: L2State): Sys {
    Sys(State(map[], v), map[])
  }

  lemma InitiallyTidy(devices: Devices, v: L2State)
    requires IsStart(devices, v) && NamesApart(devices, v.interfaces)
    ensures Tidy(devices, Before(v))
  {
    hide NamesApart, IsHost;
  }

  lemma ApartKeeps(devices: Devices, v: L2State)
    requires IsStart(devices, v) && NamesApart(devices, v.interfaces)
    ensures AlwaysKept(devices, v)
  {
    InitiallyTidy(devices, v);
    forall o, actions | NeverFails(o) && AllowedRun(o, devices, Before(v), actions)
      ensures Kept(devices, VlanBridge.Run(o, devices, Before(v), actions))
    {
      RunKeepsTidy(o, devices, Before(v), actions);
      hide Consistent, Unambiguous, ConnsTidy, SubIfsTidy, BridgesTidy;
    }
  }

  // ---- One server interface ----

  function HardwareOf(interfaces: Interfaces): Interfaces {
    map i | i in interfaces && interfaces[i].ifType == HARDWARE :: interfaces[i]
  }

  lemma JoinInterfaces(o: Oracle, s: State, key: Key, server: IfIndex)
    ensures JoinBridge(o, s, key, server).0.v.interfaces == s.v.interfaces
  {
  }

  lemma DelHardware(o: Oracle, s: State, md: Md, vlanID: nat)
    ensures HardwareOf(AfterDel(o, s, md, vlanID).s.v.interfaces) == HardwareOf(s.v.interfaces)
  {
    if md.client.Some? && Key(vlanID, md.client.value) in s.bridges {
      var key := Key(vlanID, md.client.value);
      if md.server.Some? { DetachInterfaces(o, s, key, md.server.value); }
      var s1 := if md.server.Some? then DetachServer(o, s, key, md.server.value).0 else s;
      hide DetachServer, TearDown, HardwareOf;
      TearDownHardware(o, s1, md, key);
    }
  }

  lemma DetachInterfaces(o: Oracle, s: State, key: Key, server: IfIndex)
    requires key in s.bridges
    ensures var s' := DetachServer(o, s, key, server).0; s'.v.interfaces == s.v.interfaces && key in s'.bridges
  {
  }

  lemma TearDownHardware(o: Oracle, s: State, md: Md, key: Key)
    requires key in s.bridges
    ensures HardwareOf(TearDown(o, s, md, key).s.v.interfaces) == HardwareOf(s.v.interfaces)
  {
    var v1 := AfterSetBridge(o, s.v, key.clientIfIndex, s.bridges[key].id, false).0;
    SubifHardware(o, v1, key.clientIfIndex);
    hide HardwareOf, AfterDeleteSubif;
  }

  lemma SubifHardware(o: Oracle, v: L2State, i: IfIndex)
    ensures HardwareOf(AfterDeleteSubif(o, v, i).0.interfaces) == HardwareOf(v.interfaces)
  {
  }

  lemma RequestHardware(o: Oracle, s: State, md: Md)
    ensures HardwareOf(AfterRequest(o, s, md, true, true).s.v.interfaces) == HardwareOf(s.v.interfaces)
  {
    hide JoinBridge, AfterDel, HardwareOf;
    if md.vlan.Some? {
      if md.client.Some? && md.server.Some? { JoinInterfaces(o, s, Key(md.vlan.value, md.client.value), md.server.value); }
      var added := AfterAdd(o, s, md, md.vlan.value);
      DelHardware(o, added.s, added.md, md.vlan.value);
    }
  }

  lemma AddHardware(o: Oracle, v: L2State, md: Md, names: map<string, string>, via: string, vlanID: nat, f: Found)
    ensures HardwareOf(Vlan.AfterAddSubIf(o, v, md, names, via, vlanID, f).0.interfaces) == HardwareOf(v.interfaces)
  {
    hide FirstFree, SubIfName;
  }

  /** Sub-interfaces come and go, the hardware stays. */
  lemma HardwareStays(o: Oracle, devices: Devices, sys: Sys, a: VlanBridge.Action)
    ensures HardwareOf(VlanBridge.Step(o, devices, sys, a).s.v.interfaces) == HardwareOf(sys.s.v.interfaces)
  {
    hide HardwareOf, Vlan.AfterAddSubIf, AfterDel, L2BridgeDomain.AfterRequest;
    match a
    case Open(id, device, vlanID, server, f) => RequestedHardware(o, devices, sys, id, device, Md(None, Some(server), None), vlanID, f);
    case Refresh(id, f) =>
      if id in sys.conns && sys.conns[id].md.vlan.Some? {
        RequestedHardware(o, devices, sys, id, sys.conns[id].device, sys.conns[id].md, sys.conns[id].md.vlan.value, f);
      }
    case Close(id) =>
      if id in sys.conns && sys.conns[id].md.vlan.Some? { DelHardware(o, sys.s, sys.conns[id].md, sys.conns[id].md.vlan.value); }
  }

  lemma RequestedHardware(o: Oracle, devices: Devices, sys: Sys, id: string, device: string, md: Md, vlanID: nat, f: Found)
    ensures HardwareOf(Requested(o, devices, sys, id, device, md, vlanID, f).s.v.interfaces) == HardwareOf(sys.s.v.interfaces)
  {
    hide HardwareOf, Vlan.AfterAddSubIf, L2BridgeDomain.AfterRequest;
    AddHardware(o, sys.s.v, md, Self(devices), device, vlanID, f);
    var (v, md', _) := Vlan.AfterAddSubIf(o, sys.s.v, md, Self(devices), device, vlanID, f);
    RequestHardware(o, sys.s.(v := v), md');
  }

  /** Tidy as far as the one device is concerned that a connection is open on. */
  ghost predicate Alone(devices: Devices, start: Interfaces, part: Devices, sys: Sys) {
    && Tidy(part, sys) && HardwareOf(sys.s.v.interfaces) == start
    && (forall d :: d in part ==> d in devices && part[d] == devices[d])
    && (forall c :: c in sys.conns ==> sys.conns[c].md.server.Some? && IsServerInterface(devices, start, sys.conns[c].md.server.value))
  }

  lemma NoneOpen(part: Devices, start: Interfaces, sys: Sys)
    requires SubIfsTidy(sys.s.v.interfaces, sys.conns) && sys.conns == map[] && HardwareOf(sys.s.v.interfaces) == start
    ensures sys.s.v.interfaces == start
  {
    forall i | i in sys.s.v.interfaces
      ensures sys.s.v.interfaces[i].ifType == HARDWARE
    {
      assert !UsedBySome(sys.conns, i);
    }
  }

  /** While no connection is open any one device will do. */
  lemma OtherDevice(devices: Devices, start: Interfaces, part: Devices, sys: Sys, device: string)
    requires Alone(devices, start, part, sys) && sys.conns == map[] && InPlace(devices, start) && device in devices
    ensures Alone(devices, start, map[device := devices[device]], sys)
  {
    NoneOpen(part, start, sys);
    OneDevice(devices, start, device);
    NoConns(part, map[device := devices[device]], sys);
    hide HardwareOf, InPlace, Consistent, Unambiguous, ConnsTidy, SubIfsTidy, BridgesTidy, IsServerInterface;
  }

  lemma OneDevice(devices: Devices, start: Interfaces, device: string)
    requires InPlace(devices, start) && device in devices
    ensures Unambiguous(map[device := devices[device]], start)
  {
    hide IsHost, Contains, SubIfName;
  }

  lemma NoConns(part: Devices, part': Devices, sys: Sys)
    requires sys.conns == map[]
    ensures ConnsTidy(part, sys.s.v.interfaces, sys.conns) ==> ConnsTidy(part', sys.s.v.interfaces, sys.conns)
  {
  }

  lemma NobodyElse(devices: Devices, start: Interfaces, part: Devices, sys: Sys, a: VlanBridge.Action)
    requires Alone(devices, start, part, sys) && !TwoServers(devices, start) && a.Open? && Allowed(devices, sys, a)
    ensures sys.conns == map[] && IsServerInterface(devices, start, a.server)
  {
    assert IsServerInterface(devices, start, a.server) by { hide Tidy, TwoServers; }
    forall c
      ensures c !in sys.conns
    {
      hide Tidy;
      if c in sys.conns {
        assert false;
      }
    }
  }

  /** The devices play no part but in a first request, and there only the one that is asked for. */
  lemma SameStep(o: Oracle, devices: Devices, part: Devices, sys: Sys, a: VlanBridge.Action)
    requires a.Open? ==> a.device in devices && a.device in part
    requires a.Refresh? && a.id in sys.conns ==> sys.conns[a.id].md.client.Some?
    ensures VlanBridge.Step(o, devices, sys, a) == VlanBridge.Step(o, part, sys, a)
  {
    hide Lookup, AfterCreateVlanSubif, L2BridgeDomain.AfterRequest, L2BridgeDomain.AfterClose;
  }

  lemma AloneStep(o: Oracle, devices: Devices, start: Interfaces, part: Devices, sys: Sys, a: VlanBridge.Action) returns (part': Devices)
    requires NeverFails(o) && InPlace(devices, start) && !TwoServers(devices, start)
    requires Alone(devices, start, part, sys) && Allowed(devices, sys, a)
    ensures Alone(devices, start, part', VlanBridge.Step(o, devices, sys, a))
  {
    HardwareStays(o, devices, sys, a);
    hide InPlace, TwoServers;
    if a.Open? {
      part' := AloneOpen(o, devices, start, part, sys, a);
    } else {
      part' := part;
      AloneOther(o, devices, start, part, sys, a);
    }
  }

  lemma AloneOpen(o: Oracle, devices: Devices, start: Interfaces, part: Devices, sys: Sys, a: VlanBridge.Action) returns (part': Devices)
    requires NeverFails(o) && InPlace(devices, start) && !TwoServers(devices, start)
    requires Alone(devices, start, part, sys) && Allowed(devices, sys, a) && a.Open?
    ensures Alone(devices, start, part', VlanBridge.Step(o, devices, sys, a))
  {
    hide *;
    AllowedThere(devices, sys, a);
    part' := map[a.device := devices[a.device]];
    HardwareStays(o, devices, sys, a);
    NobodyElse(devices, start, part, sys, a);
    OtherDevice(devices, start, part, sys, a.device);
    SameStep(o, devices, part', sys, a);
    AloneParts(devices, start, part', sys);
    OpenKeepsTidy(o, part', sys, a);
    OpenedServer(o, devices, sys, a);
    AloneAgain(devices, start, part', VlanBridge.Step(o, devices, sys, a), a.server);
  }

  lemma AloneParts(devices: Devices, start: Interfaces, part: Devices, sys: Sys)
    requires Alone(devices, start, part, sys)
    ensures Tidy(part, sys) && HardwareOf(sys.s.v.interfaces) == start
  {
    hide Tidy;
  }

  lemma AloneAgain(devices: Devices, start: Interfaces, part: Devices, sys: Sys, server: IfIndex)
    requires Tidy(part, sys) && HardwareOf(sys.s.v.interfaces) == start && IsServerInterface(devices, start, server)
    requires forall d :: d in part ==> d in devices && part[d] == devices[d]
    requires forall c :: c in sys.conns ==> sys.conns[c].md.server == Some(server)
    ensures Alone(devices, start, part, sys)
  {
    hide Tidy, HardwareOf, IsServerInterface;
  }

  lemma AllowedThere(devices: Devices, sys: Sys, a: VlanBridge.Action)
    requires Allowed(devices, sys, a) && a.Open?
    ensures a.device in devices && Allowed(map[a.device := devices[a.device]], sys, a)
  {
    hide FoundIn;
  }

  lemma OpenedServer(o: Oracle, devices: Devices, sys: Sys, a: VlanBridge.Action)
    requires a.Open? && sys.conns == map[]
    ensures var conns := VlanBridge.Step(o, devices, sys, a).conns;
            forall c :: c in conns ==>
              conns[c].device == a.device && conns[c].md.server == Some(a.server) && conns[c].md.vlan == Some(a.vlanID)
  {
    hide Lookup, AfterCreateVlanSubif, JoinBridge, AfterDel;
  }

  lemma AloneOther(o: Oracle, devices: Devices, start: Interfaces, part: Devices, sys: Sys, a: VlanBridge.Action)
    requires NeverFails(o) && Alone(devices, start, part, sys) && Allowed(devices, sys, a) && !a.Open?
    ensures Alone(devices, start, part, VlanBridge.Step(o, devices, sys, a))
  {
    OthersLeft(o, devices, sys, a);
    hide HardwareOf, Tidy, VlanBridge.Step, IsServerInterface;
    HardwareStays(o, devices, sys, a);
    CompleteOne(part, sys, a.id);
    SameStep(o, devices, part, sys, a);
    if a.Refresh? {
      RefreshChangesNothing(o, part, sys, a);
    } else {
      CloseKeepsTidy(o, part, sys, a);
    }
  }

  lemma OthersLeft(o: Oracle, devices: Devices, sys: Sys, a: VlanBridge.Action)
    ensures a.Close? ==> forall c :: c in VlanBridge.Step(o, devices, sys, a).conns ==>
              c in sys.conns && VlanBridge.Step(o, devices, sys, a).conns[c] == sys.conns[c]
  {
    hide L2BridgeDomain.AfterClose, Requested;
  }

  lemma CompleteOne(part: Devices, sys: Sys, id: string)
    requires Tidy(part, sys) && id in sys.conns
    ensures Complete(sys.conns[id].md)
  {
  }

  lemma {:induction false} AloneRun(o: Oracle, devices: Devices, start: Interfaces, part: Devices, sys: Sys, actions: seq<VlanBridge.Action>)
    requires NeverFails(o) && InPlace(devices, start) && !TwoServers(devices, start)
    requires Alone(devices, start, part, sys) && AllowedRun(o, devices, sys, actions)
    ensures Kept(devices, VlanBridge.Run(o, devices, sys, actions))
    decreases |actions|
  {
    hide Alone, Allowed, Kept, VlanBridge.Step, InPlace, TwoServers;
    if actions == [] {
      AloneIsKept(devices, start, part, sys);
    } else {
      var part' := AloneStep(o, devices, start, part, sys, actions[0]);
      AloneRun(o, devices, start, part', VlanBridge.Step(o, devices, sys, actions[0]), actions[1..]);
    }
  }

  lemma AloneIsKept(devices: Devices, start: Interfaces, part: Devices, sys: Sys)
    requires Alone(devices, start, part, sys)
    ensures Kept(devices, sys)
  {
    assert ConnsTidy(part, sys.s.v.interfaces, sys.conns) && SubIfsTidy(sys.s.v.interfaces, sys.conns)
           && BridgesTidy(sys.s.bridges, sys.conns);
    hide Tidy, BridgesTidy, SubIfsTidy;
    forall c | c in sys.conns
      ensures ClientOf(devices, sys.s.v.interfaces, sys.conns[c], sys.conns[c].md.client.value, sys.conns[c].md.vlan.value)
      ensures IsServerInterface(devices, sys.s.v.interfaces, sys.conns[c].md.server.value)
    {
      OwnDevice(devices, part, sys.s.v.interfaces, sys.conns[c]);
    }
    hide ClientOf, IsServerInterface;
  }

  lemma OwnDevice(devices: Devices, part: Devices, interfaces: Interfaces, c: Conn)
    requires Complete(c.md) && ClientOf(part, interfaces, c, c.md.client.value, c.md.vlan.value)
    requires c.device in part ==> c.device in devices && part[c.device] == devices[c.device]
    requires IsServerInterface(devices, HardwareOf(interfaces), c.md.server.value)
    ensures ClientOf(devices, interfaces, c, c.md.client.value, c.md.vlan.value)
    ensures IsServerInterface(devices, interfaces, c.md.server.value)
  {
  }

  lemma OneServerKeeps(devices: Devices, v: L2State)
    requires IsStart(devices, v) && !TwoServers(devices, v.interfaces)
    ensures AlwaysKept(devices, v)
  {
    NobodyAlone(devices, v);
    hide IsStart, Alone, TwoServers, Kept, AllowedRun;
    forall o, actions | NeverFails(o) && AllowedRun(o, devices, Before(v), actions)
      ensures Kept(devices, VlanBridge.Run(o, devices, Before(v), actions))
    {
      AloneRun(o, devices, v.interfaces, map[], Before(v), actions);
    }
  }

  lemma NobodyAlone(devices: Devices, v: L2State)
    requires IsStart(devices, v)
    ensures Alone(devices, v.interfaces, map[], Before(v)) && InPlace(devices, v.interfaces)
  {
  }

  // ---- Names that are not apart ----

  /** A connection is open on `e`, with a sub-interface that carries the name of `d`. */
  ghost predicate Misleading(devices: Devices, start: Interfaces, sys: Sys, d: string, e: string, vlanID: nat, s1: IfIndex, i: IfIndex) {
    var interfaces := sys.s.v.interfaces;
    && Consistent(sys.s) && HardwareOf(interfaces) == start && sys.conns.Keys == {"a"}
    && sys.conns["a"].md == Md(Some(i), Some(s1), Some(vlanID))
    && i != 0 && i in interfaces && e in devices && devices[e] in start
    && interfaces[i] == IfDetails(SubIfName(start[devices[e]].name, vlanID), SUB, vlanID)
    && sys.s.bridges.Keys == {Key(vlanID, i)}
  }

  lemma FirstOpen(o: Oracle, devices: Devices, v: L2State, d: string, e: string, vlanID: nat, s1: IfIndex) returns (a: VlanBridge.Action, i: IfIndex)
    requires NeverFails(o) && IsStart(devices, v) && e in devices && IsVlanId(vlanID) && IsServerInterface(devices, v.interfaces, s1)
    ensures Allowed(devices, Before(v), a)
    ensures Misleading(devices, v.interfaces, VlanBridge.Step(o, devices, Before(v), a), d, e, vlanID, s1, i)
  {
    a := Open("a", e, vlanID, s1, Found(None, Some(devices[e])));
    var part, sys' := map[e := devices[e]], VlanBridge.Step(o, devices, Before(v), a);
    FirstAllowed(devices, v, e, vlanID, s1);
    hide *;
    FirstTidy(o, devices, v, a);
    OpenedServer(o, devices, Before(v), a);
    i := IsMisleading(devices, v.interfaces, part, sys', d, e, vlanID, s1);
  }

  lemma FirstTidy(o: Oracle, devices: Devices, v: L2State, a: VlanBridge.Action)
    requires NeverFails(o) && IsStart(devices, v) && a.Open? && Allowed(devices, Before(v), a) && Before(v).conns == map[]
    ensures a.device in devices
    ensures var sys' := VlanBridge.Step(o, devices, Before(v), a);
            Tidy(map[a.device := devices[a.device]], sys') && HardwareOf(sys'.s.v.interfaces) == v.interfaces && sys'.conns.Keys == {a.id}
  {
    hide *;
    AllowedThere(devices, Before(v), a);
    var part := map[a.device := devices[a.device]];
    NobodyAlone(devices, v);
    OtherDevice(devices, v.interfaces, map[], Before(v), a.device);
    AloneParts(devices, v.interfaces, part, Before(v));
    HardwareStays(o, devices, Before(v), a);
    SameStep(o, devices, part, Before(v), a);
    OpenKeepsTidy(o, part, Before(v), a);
  }

  lemma FirstAllowed(devices: Devices, v: L2State, e: string, vlanID: nat, s1: IfIndex)
    requires IsStart(devices, v) && e in devices && IsVlanId(vlanID) && IsServerInterface(devices, v.interfaces, s1)
    ensures Allowed(devices, Before(v), Open("a", e, vlanID, s1, Found(None, Some(devices[e]))))
    ensures Before(v).conns == map[] && Before(v).s.v.interfaces == v.interfaces
  {
    hide Contains, IsHost;
  }

  lemma IsMisleading(devices: Devices, start: Interfaces, part: Devices, sys: Sys, d: string, e: string, vlanID: nat, s1: IfIndex) returns (i: IfIndex)
    requires Tidy(part, sys) && HardwareOf(sys.s.v.interfaces) == start && e in devices && part == map[e := devices[e]]
    requires sys.conns.Keys == {"a"} && IsVlanId(vlanID)
    requires sys.conns["a"].device == e && sys.conns["a"].md.server == Some(s1) && sys.conns["a"].md.vlan == Some(vlanID)
    ensures Misleading(devices, start, sys, d, e, vlanID, s1, i)
  {
    hide SubIfName, Tidy, Consistent;
    CompleteOne(part, sys, "a");
    i := sys.conns["a"].md.client.value;
    OwnSubIfOf(part, sys, e, vlanID);
    OneKey(part, sys, "a");
  }

  lemma OwnSubIfOf(part: Devices, sys: Sys, e: string, vlanID: nat)
    requires Tidy(part, sys) && sys.conns.Keys == {"a"} && e in part && IsVlanId(vlanID)
    requires sys.conns["a"].device == e && sys.conns["a"].md.vlan == Some(vlanID) && sys.conns["a"].md.client.Some?
    ensures Consistent(sys.s) && part[e] in sys.s.v.interfaces && sys.s.v.interfaces[part[e]].ifType == HARDWARE
    ensures var i := sys.conns["a"].md.client.value;
            i != 0 && i in sys.s.v.interfaces && sys.s.v.interfaces[i] == IfDetails(SubIfName(sys.s.v.interfaces[part[e]].name, vlanID), SUB, vlanID)
  {
    assert ClientOf(part, sys.s.v.interfaces, sys.conns["a"], sys.conns["a"].md.client.value, vlanID);
    hide SubIfName, Consistent, SubIfsTidy, NamesApart, IsHost, BridgesTidy;
  }

  lemma OneKey(part: Devices, sys: Sys, id: string)
    requires Tidy(part, sys) && sys.conns.Keys == {id}
    ensures Complete(sys.conns[id].md) && sys.s.bridges.Keys == {KeyOf(sys.conns[id].md)}
  {
    assert BridgesTidy(sys.s.bridges, sys.conns);
    hide Tidy, ServersOn;
    assert KeysOf(sys.conns) == {KeyOf(sys.conns[id].md)};
  }

  /** A second connection, on `d`, finds the sub-interface of `e`. */
  lemma SecondOpen(o: Oracle, devices: Devices, start: Interfaces, sys: Sys, d: string, e: string, vlanID: nat, s1: IfIndex, s2: IfIndex, i: IfIndex)
    returns (a: VlanBridge.Action)
    requires NeverFails(o) && InPlace(devices, start) && Misleading(devices, start, sys, d, e, vlanID, s1, i) && s1 != s2
    requires d in devices && devices[d] != devices[e] && IsVlanId(vlanID) && Contains(SubIfName(start[devices[e]].name, vlanID), d)
    requires IsServerInterface(devices, start, s2)
    ensures Allowed(devices, sys, a) && !Kept(devices, VlanBridge.Step(o, devices, sys, a))
  {
    var f := Found(Some(i), None);
    a := Open("b", d, vlanID, s2, f);
    SecondAllowed(devices, start, sys, d, e, vlanID, s1, s2, i);
    TakenOver(o, devices, sys, d, vlanID, s2, i);
    OthersSubIf(devices, start, sys, VlanBridge.Step(o, devices, sys, a), d, e, vlanID, i);
  }

  lemma SecondAllowed(devices: Devices, start: Interfaces, sys: Sys, d: string, e: string, vlanID: nat, s1: IfIndex, s2: IfIndex, i: IfIndex)
    requires Misleading(devices, start, sys, d, e, vlanID, s1, i) && s1 != s2 && d in devices && IsVlanId(vlanID)
    requires Contains(SubIfName(start[devices[e]].name, vlanID), d) && IsServerInterface(devices, start, s2)
    ensures Allowed(devices, sys, Open("b", d, vlanID, s2, Found(Some(i), None)))
  {
    hide Contains, SubIfName, Consistent, IsHost;
    assert s2 in start && start[s2] == sys.s.v.interfaces[s2];
    assert forall c :: c in sys.conns ==> c == "a";
    assert "a" != "b";
  }

  lemma TakenOver(o: Oracle, devices: Devices, sys: Sys, d: string, vlanID: nat, s2: IfIndex, i: IfIndex)
    requires NeverFails(o) && Consistent(sys.s) && d in devices && i != 0 && vlanID != 0 && sys.s.bridges.Keys == {Key(vlanID, i)}
    ensures var sys' := VlanBridge.Step(o, devices, sys, Open("b", d, vlanID, s2, Found(Some(i), None)));
            && sys'.s.v.interfaces == sys.s.v.interfaces
            && "b" in sys'.conns && sys'.conns["b"] == Conn(d, Md(Some(i), Some(s2), Some(vlanID)))
  {
    var s, md := sys.s.(v := L2Vpp.Called(sys.s.v)), Md(Some(i), Some(s2), Some(vlanID));
    assert AfterAddSubIf(o, sys.s.v, Md(None, Some(s2), None), Self(devices), d, vlanID, Found(Some(i), None)) == (s.v, md, true);
    JoinSucceeds(o, s, Key(vlanID, i), s2);
    hide JoinBridge, Vlan.AfterAddSubIf;
  }

  lemma OthersSubIf(devices: Devices, start: Interfaces, sys: Sys, sys': Sys, d: string, e: string, vlanID: nat, i: IfIndex)
    requires InPlace(devices, start) && HardwareOf(sys.s.v.interfaces) == start && sys'.s.v.interfaces == sys.s.v.interfaces
    requires d in devices && e in devices && devices[d] != devices[e] && vlanID != 0
    requires i in sys.s.v.interfaces && sys.s.v.interfaces[i] == IfDetails(SubIfName(start[devices[e]].name, vlanID), SUB, vlanID)
    requires "b" in sys'.conns && sys'.conns["b"].device == d
    requires sys'.conns["b"].md.client == Some(i) && sys'.conns["b"].md.vlan == Some(vlanID)
    ensures !Kept(devices, sys')
  {
    var interfaces := sys.s.v.interfaces;
    assert start[devices[d]] == interfaces[devices[d]];
    SameSubIfName(start[devices[d]].name, start[devices[e]].name, vlanID);
    NamesDiffer(devices, start, d, e);
    hide SubIfName, InPlace;
    assert !ClientOf(devices, interfaces, sys'.conns["b"], i, vlanID);
    hide SubIfsTidy, BridgesTidy, ClientOf;
  }

  lemma NamesDiffer(devices: Devices, start: Interfaces, d: string, e: string)
    requires InPlace(devices, start) && d in devices && e in devices && devices[d] != devices[e]
    ensures start[devices[d]].name != start[devices[e]].name
  {
    assert !IsHost(start[devices[e]], d);
  }

  lemma NotApartFails(devices: Devices, v: L2State)
    requires IsStart(devices, v) && TwoServers(devices, v.interfaces) && !NamesApart(devices, v.interfaces)
    ensures !AlwaysKept(devices, v)
  {
    var start := v.interfaces;
    var d, e, vlanID: nat :|
      && d in devices && e in devices && IsVlanId(vlanID) && devices[e] in start && devices[d] != devices[e]
      && Contains(SubIfName(start[devices[e]].name, vlanID), d);
    var s1, s2 :| s1 != s2 && IsServerInterface(devices, start, s1) && IsServerInterface(devices, start, s2);
    var o: Oracle := n => Reply(true, 1);
    hide Contains, SubIfName, NamesApart, TwoServers, IsServerInterface, Allowed, Kept, Misleading, VlanBridge.Step;
    var a1, i := FirstOpen(o, devices, v, d, e, vlanID, s1);
    var a2 := SecondOpen(o, devices, start, VlanBridge.Step(o, devices, Before(v), a1), d, e, vlanID, s1, s2, i);
    TwoSteps(o, devices, v, a1, a2);
  }

  lemma TwoSteps(o: Oracle, devices: Devices, v: L2State, a1: VlanBridge.Action, a2: VlanBridge.Action)
    requires NeverFails(o) && Allowed(devices, Before(v), a1) && Allowed(devices, VlanBridge.Step(o, devices, Before(v), a1), a2)
    requires !Kept(devices, VlanBridge.Step(o, devices, VlanBridge.Step(o, devices, Before(v), a1), a2))
    ensures !AlwaysKept(devices, v)
  {
    hide Allowed, Kept, VlanBridge.Step;
    var sys1 := VlanBridge.Step(o, devices, Before(v), a1);
    var sys2 := VlanBridge.Step(o, devices, sys1, a2);
    var actions, last := [a1, a2], [a2];
    assert actions[1..] == last && last[1..] == [];
    assert AllowedRun(o, devices, sys2, []) && VlanBridge.Run(o, devices, sys2, []) == sys2;
    assert AllowedRun(o, devices, sys1, last) && VlanBridge.Run(o, devices, sys1, last) == sys2;
    assert AllowedRun(o, devices, Before(v), actions) && VlanBridge.Run(o, devices, Before(v), actions) == sys2;
  }

  /** All failure-free runs keep the connections' own interfaces, the bridges and the sub-interfaces in step, exactly if the
      names are apart or no two server interfaces are there to have two connections open. */
  lemma AlwaysKeptIff(devices: Devices, v: L2State)
    requires IsStart(devices, v)
    ensures AlwaysKept(devices, v) <==> NamesApart(devices, v.interfaces) || !TwoServers(devices, v.interfaces)
  {
    hide AlwaysKept, NamesApart, TwoServers, IsStart;
    if NamesApart(devices, v.interfaces) {
      ApartKeeps(devices, v);
    } else if !TwoServers(devices, v.interfaces) {
      OneServerKeeps(devices, v);
    } else {
      NotApartFails(devices, v);
    }
  }
}