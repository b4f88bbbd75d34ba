/** The VLAN client and the bridge domain server together, in runs without VPP failures: who is attached to
    which bridge, which sub-interfaces exist, and when they go. */
module VlanBridge {
  import opened Collections
  import opened Wrappers
  import opened Vpp
  import opened L2Vpp
  import opened L2BridgeDomain
  import opened Vlan

  datatype Conn = Conn(device: string, md: Md)

  datatype Sys = Sys(s: State, conns: map<string, Conn>)

  /** Devices by name, with their host interfaces. */
  type Devices = map<string, IfIndex>

  predicate Complete(md: Md) {
    md.client.Some? && md.server.Some? && md.vlan.Some?
  }

  function KeyOf(md: Md): Key
    requires Complete(md)
  {
    Key(md.vlan.value, md.client.value)
  }

  /** The name of a device does not occur in the name of a sub-interface on another host interface. */
  ghost predicate NamesApart(devices: Devices, interfaces: Interfaces) {
    forall d, e, vlanID: nat ::
      d in devices && e in devices && IsVlanId(vlanID) && devices[e] in interfaces && devices[d] != devices[e] ==>
      !Contains(SubIfName(interfaces[devices[e]].name, vlanID), d)
  }

  /** The host interfaces are in place, and the names are apart. */
  ghost predicate Unambiguous(devices: Devices, interfaces: Interfaces) {
    && (forall d :: d in devices ==>
          && devices[d] != 0 && devices[d] in interfaces
          && interfaces[devices[d]].ifType == HARDWARE && IsHost(interfaces[devices[d]], d))
    && (forall d, i :: d in devices && i in interfaces && IsHost(interfaces[i], d) ==> i == devices[d])
    && NamesApart(devices, interfaces)
  }

  ghost predicate ClientOf(devices: Devices, interfaces: Interfaces, c: Conn, i: IfIndex, vlanID: nat) {
    i != 0 && c.device in devices && devices[c.device] in interfaces &&
    if vlanID == 0 then i == devices[c.device]
    else i in interfaces && interfaces[i] == IfDetails(SubIfName(interfaces[devices[c.device]].name, vlanID), SUB, vlanID)
  }

  /** The connections' own interfaces: each has its device's host interface or sub-interface on the client side,
      and a server interface that no other connection has. */
  ghost predicate ConnsTidy(devices: Devices, interfaces: Interfaces, conns: map<string, Conn>) {
    && (forall c :: c in conns ==> Complete(conns[c].md))
    && (forall c :: c in conns ==> ClientOf(devices, interfaces, conns[c], conns[c].md.client.value, conns[c].md.vlan.value))
    && (forall c :: c in conns ==> IsServerInterface(devices, interfaces, conns[c].md.server.value))
    && (forall c, d :: c in conns && d in conns && conns[c].md.server == conns[d].md.server ==> c == d)
  }

  ghost predicate IsServerInterface(devices: Devices, interfaces: Interfaces, i: IfIndex) {
    i in interfaces && interfaces[i].ifType == HARDWARE && i !in devices.Values
  }

  /** At most one sub-interface for each device and VLAN, and none that no open connection uses. */
  ghost predicate SubIfsTidy(interfaces: Interfaces, conns: map<string, Conn>) {
    && (forall i, j :: i in interfaces && j in interfaces ==>
          interfaces[i].ifType == SUB && interfaces[i] == interfaces[j] ==> i == j)
    && (forall i :: i in interfaces && interfaces[i].ifType == SUB ==> UsedBySome(conns, i))
  }

  ghost predicate UsedBySome(conns: map<string, Conn>, i: IfIndex) {
    exists c :: c in conns && conns[c].md.client == Some(i) && conns[c].md.vlan != Some(0)
  }

  ghost function KeysOf(conns: map<string, Conn>): set<Key>
    requires forall c :: c in conns ==> Complete(conns[c].md)
  {
    set c | c in conns :: KeyOf(conns[c].md)
  }

  ghost function ServersOn(conns: map<string, Conn>, key: Key): set<IfIndex>
    requires forall c :: c in conns ==> Complete(conns[c].md)
  {
    set c | c in conns && KeyOf(conns[c].md) == key :: conns[c].md.server.value
  }

  /** There is a bridge for each key of an open connection and no other, and attached to it are its client
      interface and the server interfaces of exactly the open connections on that key. */
  ghost predicate BridgesTidy(bridges: Bridges, conns: map<string, Conn>) {
    && (forall c :: c in conns ==> Complete(conns[c].md))
    && bridges.Keys == KeysOf(conns)
    && (forall k :: k in bridges ==> bridges[k].attached == ServersOn(conns, k) + {k.clientIfIndex})
  }

  ghost predicate Tidy(devices: Devices, sys: Sys) {
    && Consistent(sys.s)
    && Unambiguous(devices, sys.s.v.interfaces)
    && ConnsTidy(devices, sys.s.v.interfaces, sys.conns)
    && SubIfsTidy(sys.s.v.interfaces, sys.conns)
    && BridgesTidy(sys.s.bridges, sys.conns)
  }

  // ---- Steps ----

  /** A first request, a later request and a close of one connection. `f` is what the dump makes the client find. */
  datatype Action =
    | Open(id: string, device: string, vlanID: nat, server: IfIndex, f: Found)
    | Refresh(id: string, f: Found)
    | Close(id: string)

  function Self(d: Devices): map<string, string> {
    map x | x in d :: x
  }

  /** The VLAN client's `addSubIf` and then, on the way back, the server's bridging. */
  function Requested(o: Oracle, devices: Devices, sys: Sys, id: string, device: string, md: Md, vlanID: nat, f: Found): Sys {
    var (v, md', ok) := AfterAddSubIf(o, sys.s.v, md, Self(devices), device, vlanID, f);
    if !ok then sys.(s := sys.s.(v := v))
    else
      var r := AfterRequest(o, sys.s.(v := v), md', true, true);
      if r.ok then Sys(r.s, sys.conns[id := Conn(device, r.md)]) else sys.(s := r.s)
  }

  function Step(o: Oracle, devices: Devices, sys: Sys, a: Action): Sys {
    match a
    case Open(id, device, vlanID, server, f) =>
      Requested(o, devices, sys, id, device, Md(None, Some(server), None), vlanID, f)
    case Refresh(id, f) =>
      if id !in sys.conns || sys.conns[id].md.vlan.None? then sys
      else Requested(o, devices, sys, id, sys.conns[id].device, sys.conns[id].md, sys.conns[id].md.vlan.value, f)
    case Close(id) =>
      if id !in sys.conns then sys
      else Sys(AfterClose(o, sys.s, sys.conns[id].md, true).s, sys.conns - {id})
  }

  /** An open uses a known device and a server interface no open connection uses, and finds what the dump holds. */
  ghost predicate Allowed(devices: Devices, sys: Sys, a: Action) {
    match a
    case Open(id, device, vlanID, server, f) =>
      && id !in sys.conns && device in devices && (vlanID == 0 || IsVlanId(vlanID))
      && IsServerInterface(devices, sys.s.v.interfaces, server)
      && (forall c :: c in sys.conns ==> sys.conns[c].md.server != Some(server))
      && FoundIn(sys.s.v.interfaces, device, vlanID, f)
    case Refresh(id, f) => id in sys.conns
    case Close(id) => id in sys.conns
  }

  // ---- Opening ----

  lemma SuffixContained(prefix: string, s: string, suffix: string)
    ensures Contains(prefix + s + suffix, s)
  {
    assert OccursAt(prefix + s + suffix, s, |prefix|);
  }

  lemma HostNameContained(details: IfDetails, device: string)
    requires IsHost(details, device)
    ensures Contains(details.name, device)
  {
    if details.name == device {
      SuffixContained("", device, "");
      assert details.name == "" + device + "";
    } else {
      SuffixContained(AF_PACKET_NAME_PREFIX, device, "");
      assert details.name == AF_PACKET_NAME_PREFIX + device + "";
    }
  }

  lemma OwnNameContained(details: IfDetails, device: string, vlanID: nat)
    requires IsHost(details, device)
    ensures Contains(SubIfName(details.name, vlanID), device)
  {
    if details.name == device {
      SuffixContained("", device, "." + Digits(vlanID));
      assert SubIfName(details.name, vlanID) == "" + device + ("." + Digits(vlanID));
    } else {
      SuffixContained(AF_PACKET_NAME_PREFIX, device, "." + Digits(vlanID));
      assert SubIfName(details.name, vlanID) == AF_PACKET_NAME_PREFIX + device + ("." + Digits(vlanID));
    }
  }

  function SubIfOf(devices: Devices, interfaces: Interfaces, device: string, vlanID: nat): IfDetails
    requires device in devices && devices[device] in interfaces
  {
    IfDetails(SubIfName(interfaces[devices[device]].name, vlanID), SUB, vlanID)
  }

  /** What the search by name finds: the device's own sub-interface on that VLAN if there is one, and otherwise
      the device's host interface. */
  lemma LookupIsExact(devices: Devices, sys: Sys, device: string, vlanID: nat, f: Found)
    requires Tidy(devices, sys) && device in devices && FoundIn(sys.s.v.interfaces, device, vlanID, f)
    requires vlanID == 0 || IsVlanId(vlanID)
    ensures var interfaces := sys.s.v.interfaces;
            var (host, sub, ok) := Lookup(f);
            && ok
            && (sub != 0 ==> vlanID != 0 && sub in interfaces && interfaces[sub] == SubIfOf(devices, interfaces, device, vlanID))
            && (sub == 0 ==> host == devices[device])
            && (sub == 0 && vlanID != 0 ==> forall i :: i in interfaces ==> interfaces[i] != SubIfOf(devices, interfaces, device, vlanID))
  {
    var interfaces := sys.s.v.interfaces;
    assert IsHost(interfaces[devices[device]], device);
    if f.sub.Some? {
      var i := f.sub.value;
      assert UsedBySome(sys.conns, i);
      var c :| c in sys.conns && sys.conns[c].md.client == Some(i) && sys.conns[c].md.vlan != Some(0);
      assert ClientOf(devices, interfaces, sys.conns[c], i, sys.conns[c].md.vlan.value);
    } else {
      OwnNameContained(interfaces[devices[device]], device, vlanID);
    }
  }

  /** What the VLAN client makes of a first request: at most one new interface, the missing sub-interface. */
  lemma AddSubIfResult(o: Oracle, devices: Devices, sys: Sys, device: string, vlanID: nat, server: IfIndex, f: Found)
    requires NeverFails(o) && Tidy(devices, sys) && device in devices
    requires FoundIn(sys.s.v.interfaces, device, vlanID, f) && (vlanID == 0 || IsVlanId(vlanID))
    ensures var interfaces := sys.s.v.interfaces;
            var (v, md, ok) := AfterAddSubIf(o, sys.s.v, Md(None, Some(server), None), Self(devices), device, vlanID, f);
            && ok && md.server == Some(server) && md.vlan == Some(vlanID) && md.client.Some?
            && v.domains == sys.s.v.domains && v.member == sys.s.v.member
            && ClientOf(devices, v.interfaces, Conn(device, md), md.client.value, vlanID)
            && Grown(devices, interfaces, v.interfaces, device, vlanID, md.client.value)
  {
    var v := sys.s.v;
    var (host, sub, _) := Lookup(f);
    LookupIsExact(devices, sys, device, vlanID, f);
    assert devices[device] != 0 && devices[device] in v.interfaces;
    AddSubIfOutcome(o, v, devices, device, vlanID, server, f);
    hide Tidy, FoundIn, IsHost, Lookup, SubIfName, AfterCreateVlanSubif, AfterAddSubIf;
    if vlanID != 0 && sub == 0 { CreatedSubIf(o, Called(v), host, vlanID); }
  }

  /** The three ways in which the VLAN client comes to its interface. */
  lemma AddSubIfOutcome(o: Oracle, v: L2State, devices: Devices, device: string, vlanID: nat, server: IfIndex, f: Found)
    requires NeverFails(o) && device in devices && Lookup(f).2
    ensures var (host, sub, _) := Lookup(f);
            var (v', _, index) := AfterCreateVlanSubif(o, Called(v), host, vlanID);
            AfterCreateVlanSubif(o, Called(v), host, vlanID).1 || vlanID == 0 || sub != 0 ==>
            AfterAddSubIf(o, v, Md(None, Some(server), None), Self(devices), device, vlanID, f) ==
            if vlanID == 0 then (Called(v), Md(Some(host), Some(server), Some(vlanID)), true)
            else if sub != 0 then (Called(v), Md(Some(sub), Some(server), Some(vlanID)), true)
            else (v', Md(Some(index), Some(server), Some(vlanID)), true)
  {
    hide Lookup, AfterCreateVlanSubif;
    assert Self(devices)[device] == device;
  }

  lemma CreatedSubIf(o: Oracle, v: L2State, host: IfIndex, vlanID: nat)
    requires NeverFails(o) && host in v.interfaces
    ensures var (v', ok, index) := AfterCreateVlanSubif(o, v, host, vlanID);
            && ok && index != 0 && index !in v.interfaces
            && v'.interfaces == v.interfaces[index := IfDetails(SubIfName(v.interfaces[host].name, vlanID), SUB, vlanID)]
            && v'.domains == v.domains && v'.member == v.member
  {
  }

  /** A sub-interface is never taken for its own device's host interface. */
  lemma SubIfIsNoHost(details: IfDetails, device: string, vlanID: nat)
    requires IsHost(details, device)
    ensures !IsHost(IfDetails(SubIfName(details.name, vlanID), SUB, vlanID), device)
  {
    var suffix := "." + Digits(vlanID);
    var name := SubIfName(details.name, vlanID);
    assert name == details.name + suffix;
    assert suffix[0] == '.';
    assert multiset(device + suffix) == multiset(device) + multiset(suffix);
    assert multiset(AF_PACKET_NAME_PREFIX + device) == multiset(AF_PACKET_NAME_PREFIX) + multiset(device);
    assert '.' in multiset(suffix) && '.' !in multiset(AF_PACKET_NAME_PREFIX);
    assert multiset(device + suffix)['.'] != multiset(AF_PACKET_NAME_PREFIX + device)['.'];
  }

  lemma NewSubIfKeepsUnambiguous(devices: Devices, interfaces: Interfaces, device: string, vlanID: nat, index: IfIndex)
    requires Unambiguous(devices, interfaces) && device in devices && index !in interfaces && IsVlanId(vlanID)
    ensures Unambiguous(devices, interfaces[index := SubIfOf(devices, interfaces, device, vlanID)])
  {
    var interfaces' := interfaces[index := SubIfOf(devices, interfaces, device, vlanID)];
    forall d | d in devices
      ensures !IsHost(interfaces'[index], d)
    {
      if devices[d] == devices[device] {
        SubIfIsNoHost(interfaces[devices[d]], d, vlanID);
      } else if IsHost(interfaces'[index], d) {
        OwnNameContained(interfaces[devices[device]], device, vlanID);
        HostNameContained(interfaces'[index], d);
      }
    }
  }

  /** No server interface is a client interface, and a client interface determines its key. */
  lemma InterfacesApart(devices: Devices, interfaces: Interfaces, conns: map<string, Conn>, a: string, b: string)
    requires Unambiguous(devices, interfaces) && ConnsTidy(devices, interfaces, conns) && a in conns && b in conns
    ensures conns[a].md.client != conns[b].md.server
    ensures conns[a].md.client == conns[b].md.client ==> KeyOf(conns[a].md) == KeyOf(conns[b].md)
  {
    assert ClientOf(devices, interfaces, conns[a], conns[a].md.client.value, conns[a].md.vlan.value);
    assert ClientOf(devices, interfaces, conns[b], conns[b].md.client.value, conns[b].md.vlan.value);
  }

  /** The interfaces of a connection are attached under its own key only. */
  lemma TidyIsExclusive(devices: Devices, s: State, conns: map<string, Conn>, others: map<string, Conn>, id: string)
    requires Unambiguous(devices, s.v.interfaces) && ConnsTidy(devices, s.v.interfaces, conns) && id in conns
    requires BridgesTidy(s.bridges, others) && (forall c :: c in others ==> c in conns && others[c] == conns[c])
    ensures var md := conns[id].md;
            && OnlyUnder(s, KeyOf(md), md.client.value) && OnlyUnder(s, KeyOf(md), md.server.value)
  {
    hide Unambiguous, ClientOf, IsServerInterface;
    var md := conns[id].md;
    forall k | k in s.bridges && k != KeyOf(md)
      ensures md.client.value !in s.bridges[k].attached && md.server.value !in s.bridges[k].attached
    {
      var c :| c in others && KeyOf(others[c].md) == k;
      InterfacesApart(devices, s.v.interfaces, conns, id, c);
      InterfacesApart(devices, s.v.interfaces, conns, c, id);
      forall d | d in others && KeyOf(others[d].md) == k
        ensures others[d].md.server.value != md.client.value && others[d].md.server.value != md.server.value
      {
        InterfacesApart(devices, s.v.interfaces, conns, id, d);
      }
    }
  }

  lemma ServersOnMore(conns: map<string, Conn>, id: string, c: Conn, key: Key)
    requires forall d :: d in conns ==> Complete(conns[d].md)
    requires id !in conns && Complete(c.md)
    ensures ServersOn(conns[id := c], key) ==
            ServersOn(conns, key) + if KeyOf(c.md) == key then {c.md.server.value} else {}
  {
    var conns' := conns[id := c];
    forall i
      ensures i in ServersOn(conns', key) <==>
              i in ServersOn(conns, key) || (KeyOf(c.md) == key && i == c.md.server.value)
    {
      if i in ServersOn(conns, key) {
        var d :| d in conns && KeyOf(conns[d].md) == key && conns[d].md.server.value == i;
        assert conns'[d] == conns[d];
      }
      if KeyOf(c.md) == key && i == c.md.server.value {
        assert conns'[id] == c;
      }
    }
  }

  lemma KeysOfMore(conns: map<string, Conn>, id: string, c: Conn)
    requires forall d :: d in conns ==> Complete(conns[d].md)
    requires id !in conns && Complete(c.md)
    ensures KeysOf(conns[id := c]) == KeysOf(conns) + {KeyOf(c.md)}
  {
    var conns' := conns[id := c];
    assert conns'[id] == c;
    assert forall d :: d in conns ==> conns'[d] == conns[d];
    forall k | k in KeysOf(conns)
      ensures k in KeysOf(conns')
    {
      var d :| d in conns && KeyOf(conns[d].md) == k;
      assert d in conns';
    }
  }

  lemma NoServersWithoutKey(conns: map<string, Conn>, key: Key)
    requires forall d :: d in conns ==> Complete(conns[d].md)
    ensures key !in KeysOf(conns) ==> ServersOn(conns, key) == {}
  {
  }

  /** Joining a bridge keeps the bridges and the open connections in step. */
  lemma JoinKeepsBridgesTidy(bridges: Bridges, bridges': Bridges, conns: map<string, Conn>, id: string, c: Conn)
    requires BridgesTidy(bridges, conns) && id !in conns && Complete(c.md) && KeyOf(c.md) in bridges'
    requires bridges' == bridges[KeyOf(c.md) := bridges'[KeyOf(c.md)]]
    requires bridges'[KeyOf(c.md)].attached ==
             (if KeyOf(c.md) in bridges then bridges[KeyOf(c.md)].attached else {}) + {c.md.server.value, c.md.client.value}
    ensures BridgesTidy(bridges', conns[id := c])
  {
    var conns' := conns[id := c];
    hide ServersOn, KeysOf;
    KeysOfMore(conns, id, c);
    forall k | k in bridges'
      ensures bridges'[k].attached == ServersOn(conns', k) + {k.clientIfIndex}
    {
      ServersOnMore(conns, id, c, k);
      NoServersWithoutKey(conns, k);
    }
  }

  /** `interfaces` is `before` with at most one more, a sub-interface of `device` that was missing. */
  ghost predicate Grown(devices: Devices, before: Interfaces, interfaces: Interfaces, device: string, vlanID: nat, index: IfIndex) {
    && device in devices && devices[device] in before
    && (interfaces == before ||
        (IsVlanId(vlanID) && index !in before && interfaces == before[index := SubIfOf(devices, before, device, vlanID)] &&
         forall i :: i in before ==> before[i] != SubIfOf(devices, before, device, vlanID)))
  }

  lemma NewConnKeepsConnsTidy(devices: Devices, before: Interfaces, interfaces: Interfaces, conns: map<string, Conn>, id: string, c: Conn)
    requires ConnsTidy(devices, before, conns) && id !in conns && Complete(c.md)
    requires Grown(devices, before, interfaces, c.device, c.md.vlan.value, c.md.client.value)
    requires ClientOf(devices, interfaces, c, c.md.client.value, c.md.vlan.value)
    requires IsServerInterface(devices, before, c.md.server.value)
    requires forall d :: d in conns ==> conns[d].md.server != c.md.server
    ensures ConnsTidy(devices, interfaces, conns[id := c])
  {
    var conns' := conns[id := c];
    forall d | d in conns'
      ensures ClientOf(devices, interfaces, conns'[d], conns'[d].md.client.value, conns'[d].md.vlan.value)
      ensures IsServerInterface(devices, interfaces, conns'[d].md.server.value)
    {
      if d != id {
        assert ClientOf(devices, before, conns[d], conns[d].md.client.value, conns[d].md.vlan.value);
        assert IsServerInterface(devices, before, conns[d].md.server.value);
      }
    }
  }

  lemma NewConnKeepsSubIfsTidy(devices: Devices, before: Interfaces, interfaces: Interfaces, conns: map<string, Conn>, id: string, c: Conn)
    requires SubIfsTidy(before, conns) && id !in conns && Complete(c.md)
    requires Grown(devices, before, interfaces, c.device, c.md.vlan.value, c.md.client.value)
    ensures SubIfsTidy(interfaces, conns[id := c])
  {
    var conns' := conns[id := c];
    forall i | i in interfaces && interfaces[i].ifType == SUB
      ensures UsedBySome(conns', i)
    {
      if i in before {
        assert UsedBySome(conns, i);
        var d :| d in conns && conns[d].md.client == Some(i) && conns[d].md.vlan != Some(0);
        assert conns'[d] == conns[d];
      } else {
        assert conns'[id] == c;
      }
    }
  }

  /** The situation in which a new connection joins its bridge. */
  ghost predicate Joining(devices: Devices, sys: Sys, v: L2State, id: string, c: Conn) {
    && id !in sys.conns && Complete(c.md)
    && Grown(devices, sys.s.v.interfaces, v.interfaces, c.device, c.md.vlan.value, c.md.client.value)
    && ClientOf(devices, v.interfaces, c, c.md.client.value, c.md.vlan.value)
    && IsServerInterface(devices, sys.s.v.interfaces, c.md.server.value)
    && (forall d :: d in sys.conns ==> sys.conns[d].md.server != c.md.server)
    && v.domains == sys.s.v.domains && v.member == sys.s.v.member
  }

  /** The new connection and the sub-interface it may have brought fit with the rest. */
  lemma JoiningIsTidy(devices: Devices, sys: Sys, v: L2State, id: string, c: Conn)
    requires Tidy(devices, sys) && Joining(devices, sys, v, id, c)
    ensures Unambiguous(devices, v.interfaces)
    ensures ConnsTidy(devices, v.interfaces, sys.conns[id := c])
    ensures SubIfsTidy(v.interfaces, sys.conns[id := c])
    ensures Consistent(sys.s.(v := v))
  {
    var before := sys.s.v.interfaces;
    if v.interfaces != before {
      NewSubIfKeepsUnambiguous(devices, before, c.device, c.md.vlan.value, c.md.client.value);
    }
    assert Consistent(sys.s.(v := v));
    hide Unambiguous, SubIfsTidy, ConnsTidy, BridgesTidy, Consistent, Grown, ClientOf, IsServerInterface;
    NewConnKeepsConnsTidy(devices, before, v.interfaces, sys.conns, id, c);
    NewConnKeepsSubIfsTidy(devices, before, v.interfaces, sys.conns, id, c);
  }

  /** Once it has joined its bridge, everything is in step again. */
  lemma JoinedIsTidy(o: Oracle, devices: Devices, sys: Sys, v: L2State, id: string, c: Conn)
    requires NeverFails(o) && Tidy(devices, sys) && Joining(devices, sys, v, id, c)
    ensures var (s', ok) := JoinBridge(o, sys.s.(v := v), KeyOf(c.md), c.md.server.value);
            ok && Tidy(devices, Sys(s', sys.conns[id := c]))
  {
    hide Unambiguous, SubIfsTidy, ConnsTidy, BridgesTidy, Consistent, Grown, JoinBridge, ClientOf, IsServerInterface, OnlyUnder;
    var s, key := sys.s.(v := v), KeyOf(c.md);
    JoiningIsTidy(devices, sys, v, id, c);
    TidyIsExclusive(devices, s, sys.conns[id := c], sys.conns, id);
    JoinSucceeds(o, s, key, c.md.server.value);
    var s' := JoinBridge(o, s, key, c.md.server.value).0;
    JoinKeepsBridgesTidy(s.bridges, s'.bridges, sys.conns, id, c);
  }

  /** A first request keeps everything in step. */
  lemma OpenKeepsTidy(o: Oracle, devices: Devices, sys: Sys, a: Action)
    requires NeverFails(o) && Tidy(devices, sys) && a.Open? && Allowed(devices, sys, a)
    ensures Tidy(devices, Step(o, devices, sys, a))
    ensures Step(o, devices, sys, a).conns.Keys == sys.conns.Keys + {a.id}
  {
    hide Unambiguous, SubIfsTidy, ConnsTidy, BridgesTidy, Consistent, Grown, JoinBridge, AfterAddSubIf;
    var Open(id, device, vlanID, server, f) := a;
    AddSubIfResult(o, devices, sys, device, vlanID, server, f);
    var (v, md, ok) := AfterAddSubIf(o, sys.s.v, Md(None, Some(server), None), Self(devices), device, vlanID, f);
    JoinedIsTidy(o, devices, sys, v, id, Conn(device, md));
  }

  /** A later request of an open connection changes nothing. */
  lemma RefreshChangesNothing(o: Oracle, devices: Devices, sys: Sys, a: Action)
    requires NeverFails(o) && Tidy(devices, sys) && a.Refresh? && Allowed(devices, sys, a)
    ensures Step(o, devices, sys, a) == sys
  {
    hide Unambiguous, SubIfsTidy, Consistent, ClientOf, IsServerInterface;
    var c := sys.conns[a.id];
    var key := KeyOf(c.md);
    assert key in sys.s.bridges;
    assert c.md.server.value in ServersOn(sys.conns, key);
    assert JoinBridge(o, sys.s, key, c.md.server.value) == (sys.s, true);
    assert sys.conns[a.id := c] == sys.conns;
  }

  // ---- Closing ----

  lemma ServersOnFewer(conns: map<string, Conn>, id: string, key: Key)
    requires forall d :: d in conns ==> Complete(conns[d].md)
    requires id in conns
    requires forall d :: d in conns && conns[d].md.server == conns[id].md.server ==> d == id
    ensures ServersOn(conns - {id}, key) ==
            ServersOn(conns, key) - if KeyOf(conns[id].md) == key then {conns[id].md.server.value} else {}
  {
    var conns', c := conns - {id}, conns[id];
    forall i
      ensures i in ServersOn(conns', key) <==>
              i in ServersOn(conns, key) && !(KeyOf(c.md) == key && i == c.md.server.value)
    {
      if i in ServersOn(conns, key) && !(KeyOf(c.md) == key && i == c.md.server.value) {
        var d :| d in conns && KeyOf(conns[d].md) == key && conns[d].md.server.value == i;
        assert d in conns' && conns'[d] == conns[d];
      }
      if i in ServersOn(conns', key) {
        var d :| d in conns' && KeyOf(conns'[d].md) == key && conns'[d].md.server.value == i;
        assert d != id && conns'[d] == conns[d];
      }
    }
  }

  /** The last connection on its key. */
  ghost predicate IsLast(conns: map<string, Conn>, id: string)
    requires forall d :: d in conns ==> Complete(conns[d].md)
    requires id in conns
  {
    forall d :: d in conns && KeyOf(conns[d].md) == KeyOf(conns[id].md) ==> d == id
  }

  lemma IsLastWhenAlone(conns: map<string, Conn>, id: string)
    requires forall d :: d in conns ==> Complete(conns[d].md)
    requires id in conns
    requires forall d :: d in conns && conns[d].md.server == conns[id].md.server ==> d == id
    ensures IsLast(conns, id) <==> ServersOn(conns, KeyOf(conns[id].md)) - {conns[id].md.server.value} == {}
  {
    var key := KeyOf(conns[id].md);
    if ServersOn(conns, key) - {conns[id].md.server.value} == {} {
      forall d | d in conns && KeyOf(conns[d].md) == key
        ensures d == id
      {
        var i, own := conns[d].md.server.value, conns[id].md.server.value;
        assert i in ServersOn(conns, key);
        assert i in ServersOn(conns, key) - {own} || i == own;
      }
    }
  }

  lemma KeysOfFewer(conns: map<string, Conn>, id: string)
    requires forall d :: d in conns ==> Complete(conns[d].md)
    requires id in conns
    ensures KeysOf(conns - {id}) == KeysOf(conns) - if IsLast(conns, id) then {KeyOf(conns[id].md)} else {}
  {
    var conns', key := conns - {id}, KeyOf(conns[id].md);
    forall k | k in KeysOf(conns) && (k != key || !IsLast(conns, id))
      ensures k in KeysOf(conns')
    {
      var d :| d in conns && KeyOf(conns[d].md) == k && d != id;
      assert d in conns' && conns'[d] == conns[d];
    }
  }

  /** How the bridges change when a connection closes. */
  ghost predicate Left(bridges: Bridges, bridges': Bridges, conns: map<string, Conn>, id: string)
    requires forall d :: d in conns ==> Complete(conns[d].md)
    requires id in conns
  {
    var key := KeyOf(conns[id].md);
    && key in bridges
    && (forall k :: k in bridges && k != key ==> k in bridges' && bridges'[k] == bridges[k])
    && (if IsLast(conns, id) then bridges'.Keys == bridges.Keys - {key}
        else bridges'.Keys == bridges.Keys && bridges'[key].attached == bridges[key].attached - {conns[id].md.server.value})
  }

  lemma LeaveKeepsBridgesTidy(bridges: Bridges, bridges': Bridges, conns: map<string, Conn>, id: string)
    requires BridgesTidy(bridges, conns) && id in conns
    requires forall d :: d in conns && conns[d].md.server == conns[id].md.server ==> d == id
    requires Left(bridges, bridges', conns, id)
    requires conns[id].md.server != conns[id].md.client
    ensures BridgesTidy(bridges', conns - {id})
  {
    var conns', key := conns - {id}, KeyOf(conns[id].md);
    KeysOfFewer(conns, id);
    forall k | k in bridges'
      ensures bridges'[k].attached == ServersOn(conns', k) + {k.clientIfIndex}
    {
      ServersOnFewer(conns, id, k);
    }
  }

  /** Which interfaces remain when a connection closes. */
  ghost predicate Shrunk(before: Interfaces, interfaces: Interfaces, conns: map<string, Conn>, id: string)
    requires forall d :: d in conns ==> Complete(conns[d].md)
    requires id in conns
  {
    var md := conns[id].md;
    interfaces == if IsLast(conns, id) && md.vlan.value != 0 then before - {md.client.value} else before
  }

  lemma ClosedKeepsUnambiguous(devices: Devices, before: Interfaces, interfaces: Interfaces, conns: map<string, Conn>, id: string)
    requires Unambiguous(devices, before) && ConnsTidy(devices, before, conns)
    requires id in conns && Shrunk(before, interfaces, conns, id)
    ensures Unambiguous(devices, interfaces)
  {
    assert ClientOf(devices, before, conns[id], conns[id].md.client.value, conns[id].md.vlan.value);
    hide IsLast, NamesApart, IsHost, SubIfName, IsServerInterface, ClientOf;
    assert forall d :: d in devices ==> devices[d] in interfaces && interfaces[devices[d]] == before[devices[d]];
    NamesStayApart(devices, before, interfaces);
  }

  lemma NamesStayApart(devices: Devices, before: Interfaces, interfaces: Interfaces)
    requires NamesApart(devices, before)
    requires forall d :: d in devices ==> devices[d] in before && devices[d] in interfaces && interfaces[devices[d]] == before[devices[d]]
    ensures NamesApart(devices, interfaces)
  {
    hide Contains, SubIfName;
  }

  lemma ClosedKeepsConnsTidy(devices: Devices, before: Interfaces, interfaces: Interfaces, conns: map<string, Conn>, id: string)
    requires Unambiguous(devices, before) && ConnsTidy(devices, before, conns)
    requires id in conns && Shrunk(before, interfaces, conns, id)
    ensures ConnsTidy(devices, interfaces, conns - {id})
  {
    forall d | d in conns - {id}
      ensures ClientOf(devices, interfaces, conns[d], conns[d].md.client.value, conns[d].md.vlan.value)
      ensures IsServerInterface(devices, interfaces, conns[d].md.server.value)
    {
      OthersInterfacesStay(devices, before, interfaces, conns, id, d);
    }
  }

  lemma OthersInterfacesStay(devices: Devices, before: Interfaces, interfaces: Interfaces, conns: map<string, Conn>, id: string, d: string)
    requires Unambiguous(devices, before) && ConnsTidy(devices, before, conns)
    requires id in conns && d in conns && d != id && Shrunk(before, interfaces, conns, id)
    ensures ClientOf(devices, interfaces, conns[d], conns[d].md.client.value, conns[d].md.vlan.value)
    ensures IsServerInterface(devices, interfaces, conns[d].md.server.value)
  {
    assert ClientOf(devices, before, conns[id], conns[id].md.client.value, conns[id].md.vlan.value);
    assert ClientOf(devices, before, conns[d], conns[d].md.client.value, conns[d].md.vlan.value);
    InterfacesApart(devices, before, conns, d, id);
    InterfacesApart(devices, before, conns, id, d);
  }

  /** A sub-interface stays in use unless its last connection closes. */
  lemma StillUsed(conns: map<string, Conn>, id: string, i: IfIndex)
    requires forall d :: d in conns ==> Complete(conns[d].md)
    requires id in conns && UsedBySome(conns, i)
    requires conns[id].md.client == Some(i) && conns[id].md.vlan != Some(0) ==> !IsLast(conns, id)
    ensures UsedBySome(conns - {id}, i)
  {
    var conns' := conns - {id};
    var d :| d in conns && conns[d].md.client == Some(i) && conns[d].md.vlan != Some(0);
    if d == id {
      var e :| e in conns && KeyOf(conns[e].md) == KeyOf(conns[id].md) && e != id;
      assert e in conns' && conns'[e].md.client == Some(i) && conns'[e].md.vlan == conns[id].md.vlan;
    } else {
      assert d in conns' && conns'[d] == conns[d];
    }
  }

  lemma ClosedKeepsSubIfsTidy(before: Interfaces, interfaces: Interfaces, conns: map<string, Conn>, id: string)
    requires forall d :: d in conns ==> Complete(conns[d].md)
    requires SubIfsTidy(before, conns)
    requires id in conns && Shrunk(before, interfaces, conns, id)
    ensures SubIfsTidy(interfaces, conns - {id})
  {
    hide IsLast, UsedBySome;
    forall i | i in interfaces && interfaces[i].ifType == SUB
      ensures UsedBySome(conns - {id}, i)
    {
      assert UsedBySome(conns, i);
      StillUsed(conns, id, i);
    }
  }

  /** What closing a connection does: it leaves its bridge, and the last connection on a key takes
      the bridge and the sub-interface with it. */
  lemma CloseResult(o: Oracle, devices: Devices, sys: Sys, id: string)
    requires NeverFails(o) && Tidy(devices, sys) && id in sys.conns
    ensures sys.conns[id].md.vlan.Some?
    ensures var s' := AfterDel(o, sys.s, sys.conns[id].md, sys.conns[id].md.vlan.value).s;
            && Consistent(s')
            && Shrunk(sys.s.v.interfaces, s'.v.interfaces, sys.conns, id)
            && Left(sys.s.bridges, s'.bridges, sys.conns, id)
  {
    var md := sys.conns[id].md;
    var key := KeyOf(md);
    hide Tidy, IsLast, Deleted, AfterDel, Consistent, Exclusive, Left, Shrunk;
    LastLeavesClient(devices, sys, id);
    DelSucceeds(o, sys.s, md, md.vlan.value);
    DeletedIsLeft(sys.s, AfterDel(o, sys.s, md, md.vlan.value).s, sys.conns, id);
  }

  lemma DeletedIsLeft(s: State, s': State, conns: map<string, Conn>, id: string)
    requires forall d :: d in conns ==> Complete(conns[d].md)
    requires id in conns && KeyOf(conns[id].md) in s.bridges
    requires var md := conns[id].md;
             IsLast(conns, id) <==> s.bridges[KeyOf(md)].attached - {md.server.value} == {md.client.value}
    requires Deleted(s, s', KeyOf(conns[id].md), conns[id].md.server.value)
    ensures Shrunk(s.v.interfaces, s'.v.interfaces, conns, id)
    ensures Left(s.bridges, s'.bridges, conns, id)
  {
    hide IsLast;
  }

  lemma OwnSubIf(devices: Devices, interfaces: Interfaces, conns: map<string, Conn>, id: string)
    requires Unambiguous(devices, interfaces) && ConnsTidy(devices, interfaces, conns) && id in conns
    ensures var md := conns[id].md;
            && Complete(md) && md.client != md.server
            && (md.vlan.value != 0 ==> md.client.value in interfaces && interfaces[md.client.value].ifType == SUB)
  {
    InterfacesApart(devices, interfaces, conns, id, id);
    assert ClientOf(devices, interfaces, conns[id], conns[id].md.client.value, conns[id].md.vlan.value);
  }

  lemma HasBridge(bridges: Bridges, conns: map<string, Conn>, id: string)
    requires BridgesTidy(bridges, conns) && id in conns
    ensures var key := KeyOf(conns[id].md);
            key in bridges && bridges[key].attached == ServersOn(conns, key) + {key.clientIfIndex}
  {
    hide ServersOn;
    assert KeyOf(conns[id].md) in KeysOf(conns);
  }

  lemma AloneWithClient(servers: set<IfIndex>, server: IfIndex, client: IfIndex)
    requires client !in servers && client != server
    ensures servers - {server} == {} <==> servers + {client} - {server} == {client}
  {
    assert servers + {client} - {server} == servers - {server} + {client};
    assert client !in servers - {server};
  }

  /** What `DelSucceeds` needs to know about an open connection. */
  lemma LastLeavesClient(devices: Devices, sys: Sys, id: string)
    requires Tidy(devices, sys) && id in sys.conns
    ensures var md := sys.conns[id].md;
            && KeyOf(md) in sys.s.bridges && Exclusive(sys.s, md)
            && (md.vlan.value != 0 ==>
                  md.client.value in sys.s.v.interfaces && sys.s.v.interfaces[md.client.value].ifType == SUB)
            && (IsLast(sys.conns, id) <==>
                  sys.s.bridges[KeyOf(md)].attached - {md.server.value} == {md.client.value})
  {
    var md := sys.conns[id].md;
    var servers := ServersOn(sys.conns, KeyOf(md));
    TidyIsExclusive(devices, sys.s, sys.conns, sys.conns, id);
    IsLastWhenAlone(sys.conns, id);
    OwnSubIf(devices, sys.s.v.interfaces, sys.conns, id);
    NoClientAmongServers(devices, sys, id);
    HasBridge(sys.s.bridges, sys.conns, id);
    hide IsLast, ServersOn, KeysOf, Unambiguous, SubIfsTidy, Consistent, OnlyUnder, IsServerInterface, BridgesTidy;
    AloneWithClient(servers, md.server.value, md.client.value);
  }

  lemma NoClientAmongServers(devices: Devices, sys: Sys, id: string)
    requires Tidy(devices, sys) && id in sys.conns
    ensures sys.conns[id].md.client.value !in ServersOn(sys.conns, KeyOf(sys.conns[id].md))
  {
    forall d | d in sys.conns
      ensures sys.conns[d].md.server != sys.conns[id].md.client
    {
      InterfacesApart(devices, sys.s.v.interfaces, sys.conns, id, d);
    }
  }

  /** A close keeps everything in step. */
  lemma CloseKeepsTidy(o: Oracle, devices: Devices, sys: Sys, a: Action)
    requires NeverFails(o) && Tidy(devices, sys) && a.Close? && Allowed(devices, sys, a)
    ensures Tidy(devices, Step(o, devices, sys, a))
  {
    hide Consistent, Unambiguous, ConnsTidy, SubIfsTidy, BridgesTidy, AfterDel, Shrunk, Left;
    CloseResult(o, devices, sys, a.id);
    ClosedIsTidy(devices, sys, AfterClose(o, sys.s, sys.conns[a.id].md, true).s, a.id);
  }

  lemma OwnServers(devices: Devices, interfaces: Interfaces, conns: map<string, Conn>)
    requires ConnsTidy(devices, interfaces, conns)
    ensures forall c :: c in conns ==> Complete(conns[c].md)
    ensures forall c, d :: c in conns && d in conns && conns[c].md.server == conns[d].md.server ==> c == d
  {
  }

  lemma ClosedIsTidy(devices: Devices, sys: Sys, s': State, id: string)
    requires Tidy(devices, sys) && id in sys.conns && Consistent(s')
    requires Shrunk(sys.s.v.interfaces, s'.v.interfaces, sys.conns, id) && Left(sys.s.bridges, s'.bridges, sys.conns, id)
    ensures Tidy(devices, Sys(s', sys.conns - {id}))
  {
    var conns, before, interfaces := sys.conns, sys.s.v.interfaces, s'.v.interfaces;
    OwnServers(devices, before, conns);
    hide Consistent, Unambiguous, ConnsTidy, SubIfsTidy, BridgesTidy, Shrunk, Left;
    InterfacesApart(devices, before, conns, id, id);
    ClosedKeepsUnambiguous(devices, before, interfaces, conns, id);
    ClosedKeepsConnsTidy(devices, before, interfaces, conns, id);
    ClosedKeepsSubIfsTidy(before, interfaces, conns, id);
    LeaveKeepsBridgesTidy(sys.s.bridges, s'.bridges, conns, id);
  }

  // ---- Runs ----

  function Run(o: Oracle, devices: Devices, sys: Sys, actions: seq<Action>): Sys
    decreases |actions|
  {
    if actions == [] then sys else Run(o, devices, Step(o, devices, sys, actions[0]), actions[1..])
  }

  ghost predicate AllowedRun(o: Oracle, devices: Devices, sys: Sys, actions: seq<Action>)
    decreases |actions|
  {
    actions != [] ==>
      Allowed(devices, sys, actions[0]) && AllowedRun(o, devices, Step(o, devices, sys, actions[0]), actions[1..])
  }

  /** In every failure-free run: a bridge's attached interfaces are its client interface and exactly the server interfaces
      of the open connections on its key, there is at most one sub-interface for each device and VLAN id, and bridges and
      sub-interfaces exist exactly while a connection that needs them is open. */
  lemma {:induction false} RunKeepsTidy(o: Oracle, devices: Devices, sys: Sys, actions: seq<Action>)
    requires NeverFails(o) && Tidy(devices, sys) && AllowedRun(o, devices, sys, actions)
    ensures Tidy(devices, Run(o, devices, sys, actions))
    decreases |actions|
  {
    if actions != [] {
      match actions[0] {
        case Open(_, _, _, _, _) => OpenKeepsTidy(o, devices, sys, actions[0]);
        case Refresh(_, _) => RefreshChangesNothing(o, devices, sys, actions[0]);
        case Close(_) => CloseKeepsTidy(o, devices, sys, actions[0]);
      }
      RunKeepsTidy(o, devices, Step(o, devices, sys, actions[0]), actions[1..]);
    }
  }
}
