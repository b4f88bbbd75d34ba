/** VLAN sub-interfaces, one per device and VLAN id, found again by name
    (pkg/networkservice/mechanisms/vlan/common.go). */
module Vlan {
  import opened Wrappers
  import opened Vpp
  import opened L2Vpp
  import opened L2BridgeDomain

  type Interfaces = map<IfIndex, IfDetails>

  const AF_PACKET_NAME_PREFIX := "host-"

  /** The VLAN ids of IEEE 802.1Q; 0 stands for none. */
  predicate IsVlanId(n: nat) {
    0 < n <= 4094
  }

  predicate OccursAt(s: string, sub: string, i: int) {
    0 <= i <= |s| - |sub| && s[i..i + |sub|] == sub
  }

  /** `strings.Contains`. */
  predicate Contains(s: string, sub: string) {
    exists i :: 0 <= i <= |s| && OccursAt(s, sub, i)
  }

  predicate IsHost(details: IfDetails, device: string) {
    details.name == device || details.name == AF_PACKET_NAME_PREFIX + device
  }

  predicate IsSub(details: IfDetails, device: string, vlanID: nat) {
    vlanID != 0 && Contains(details.name, device) && details.ifType == SUB && details.subID == vlanID
  }

  /** What the loop over a dump finds: the first sub-interface that matches, and otherwise the
      last host interface. The order of a dump is VPP's. */
  datatype Found = Found(sub: Option<IfIndex>, host: Option<IfIndex>)

  ghost predicate FoundIn(interfaces: Interfaces, device: string, vlanID: nat, f: Found) {
    && (f.sub.Some? ==> f.sub.value in interfaces && IsSub(interfaces[f.sub.value], device, vlanID))
    && (f.sub.None? ==> forall i :: i in interfaces ==> !IsSub(interfaces[i], device, vlanID))
    && (f.host.Some? ==> f.host.value in interfaces && IsHost(interfaces[f.host.value], device))
    && (f.sub.None? && f.host.None? ==> forall i :: i in interfaces ==> !IsHost(interfaces[i], device))
  }

  /** `getHostOrVlanInterface` on what was found: host index, sub-interface index, and whether there is no error. */
  function Lookup(f: Found): (IfIndex, IfIndex, bool) {
    match f.sub
    case Some(i) => (0, i, true)
    case None =>
      if f.host.None? || f.host.value == 0 then (0, 0, false) else (f.host.value, 0, true)
  }

  function AfterAddSubIf(o: Oracle, v: L2State, md: Md, deviceNames: map<string, string>, via: string, vlanID: nat,
                         f: Found): (L2State, Md, bool) {
    if md.client.Some? then (v, md, true)
    else if via !in deviceNames then (v, md, false)
    else if !o(v.calls).ok || !Lookup(f).2 then (Called(v), md, false)
    else
      var (host, sub, _) := Lookup(f);
      if vlanID == 0 then (Called(v), md.(client := Some(host), vlan := Some(vlanID)), true)
      else if sub != 0 then (Called(v), md.(client := Some(sub), vlan := Some(vlanID)), true)
      else
        var (v', ok, index) := AfterCreateVlanSubif(o, Called(v), host, vlanID);
        if ok then (v', md.(client := Some(index), vlan := Some(vlanID)), true) else (v', md, false)
  }

  /** The metadata goes; the sub-interface itself is deleted together with the bridge. */
  function AfterDelSubIf(md: Md): Md {
    if md.client.None? then md else md.(client := None, vlan := None)
  }

  /** What the search finds, in names: a sub-interface of that VLAN whose name contains the device's somewhere, or an interface
      with the device's name or "host-" and that. Without a VLAN it finds no sub-interface. */
  lemma SearchMeans(interfaces: Interfaces, device: string, vlanID: nat, f: Found)
    requires FoundIn(interfaces, device, vlanID, f)
    ensures f.sub.Some? ==>
              && vlanID != 0 && f.sub.value in interfaces && interfaces[f.sub.value].ifType == SUB && interfaces[f.sub.value].subID == vlanID
              && exists a: string, b: string :: interfaces[f.sub.value].name == a + device + b
    ensures f.sub.None? && vlanID != 0 ==>
              forall i, a: string, b: string :: i in interfaces && interfaces[i].ifType == SUB && interfaces[i].subID == vlanID ==>
                interfaces[i].name != a + device + b
    ensures f.host.Some? ==> f.host.value in interfaces && interfaces[f.host.value].name in {device, "host-" + device}
    ensures f.sub.None? && f.host.None? ==> forall i :: i in interfaces ==> interfaces[i].name !in {device, "host-" + device}
  {
    if f.sub.Some? {
      var name := interfaces[f.sub.value].name;
      var i :| 0 <= i <= |name| && OccursAt(name, device, i);
      assert name == name[..i] + device + name[i + |device|..];
    }
    forall i, a: string, b: string | i in interfaces && interfaces[i].name == a + device + b
      ensures Contains(interfaces[i].name, device)
    {
      assert OccursAt(interfaces[i].name, device, |a|);
    }
  }

  /** Exactly when the VLAN client succeeds: if it has its interface, or knows the device, gets the dump, finds a
      sub-interface or a host interface other than VPP's own interface 0, and, where it makes a sub-interface, is given one. */
  lemma AddSubIfSucceedsIff(o: Oracle, v: L2State, md: Md, deviceNames: map<string, string>, via: string, vlanID: nat, f: Found)
    requires via in deviceNames ==> FoundIn(v.interfaces, deviceNames[via], vlanID, f)
    ensures AfterAddSubIf(o, v, md, deviceNames, via, vlanID, f).2 <==>
            || md.client.Some?
            || (&& via in deviceNames && o(v.calls).ok
                && if f.sub.Some? then f.sub.value != 0 || o(v.calls + 1).ok
                   else f.host.Some? && f.host.value != 0 && (vlanID == 0 || o(v.calls + 1).ok))
  {
    hide FirstFree, SubIfName, IsHost;
  }

  /** Once the metadata are gone, the next request asks VPP again. */
  lemma ForgottenIsNew(o: Oracle, v: L2State, md: Md, deviceNames: map<string, string>, via: string, vlanID: nat, f: Found)
    ensures AfterDelSubIf(md).server == md.server && (md.client.Some? ==> AfterDelSubIf(md).vlan.None?)
    ensures via in deviceNames ==> AfterAddSubIf(o, v, AfterDelSubIf(md), deviceNames, via, vlanID, f).0.calls > v.calls
    ensures md.client.Some? ==> AfterAddSubIf(o, v, md, deviceNames, via, vlanID, f) == (v, md, true)
    ensures via !in deviceNames && md.client.None? ==> AfterAddSubIf(o, v, md, deviceNames, via, vlanID, f) == (v, md, false)
  {
    hide Lookup, FirstFree, SubIfName;
  }

  method GetHostOrVlanInterface(vpp: L2Conn, device: string, vlanID: nat)
    returns (host: IfIndex, sub: IfIndex, ok: bool, ghost f: Found)
    modifies vpp
    ensures vpp.v == Called(old(vpp.v))
    ensures FoundIn(vpp.v.interfaces, device, vlanID, f)
    ensures (host, sub, ok) == if vpp.oracle(old(vpp.v).calls).ok then Lookup(f) else (0, 0, false)
  {
    host, sub, f := 0, 0, Found(None, None);
    ok := vpp.oracle(vpp.v.calls).ok;
    vpp.v := Called(vpp.v);
    var interfaces := vpp.v.interfaces;
    var todo := interfaces.Keys;
    while todo != {}
      invariant todo <= interfaces.Keys
      invariant f.sub.None? && host == if f.host.Some? then f.host.value else 0
      invariant forall i :: i in interfaces.Keys - todo ==> !IsSub(interfaces[i], device, vlanID)
      invariant f.host.Some? ==> host in interfaces && IsHost(interfaces[host], device)
      invariant f.host.None? ==> forall i :: i in interfaces.Keys - todo ==> !IsHost(interfaces[i], device)
    {
      var i :| i in todo;
      if IsSub(interfaces[i], device, vlanID) {
        f := f.(sub := Some(i));
        if ok { return 0, i, true, f; } else { return 0, 0, false, f; }
      }
      if IsHost(interfaces[i], device) {
        host := i;
        f := f.(host := Some(i));
      }
      todo := todo - {i};
    }
    if !ok || host == 0 {
      return 0, 0, false, f;
    }
    return host, 0, true, f;
  }

  method AddSubIf(vpp: L2Conn, ctx: Metadata, deviceNames: map<string, string>, via: string, vlanID: nat)
    returns (ok: bool, ghost f: Found)
    modifies vpp, ctx
    ensures via in deviceNames ==> FoundIn(old(vpp.v).interfaces, deviceNames[via], vlanID, f)
    ensures (vpp.v, ctx.md, ok) == AfterAddSubIf(vpp.oracle, old(vpp.v), old(ctx.md), deviceNames, via, vlanID, f)
  {
    f := AnyFound(vpp.v.interfaces, if via in deviceNames then deviceNames[via] else "", vlanID);
    if ctx.md.client.Some? {
      return true, f;
    }
    if via !in deviceNames {
      return false, f;
    }
    var host, sub;
    host, sub, ok, f := GetHostOrVlanInterface(vpp, deviceNames[via], vlanID);
    if !ok {
      return;
    }
    if vlanID != 0 {
      if sub != 0 {
        ctx.md := ctx.md.(client := Some(sub));
      } else {
        var index;
        ok, index := vpp.CreateVlanSubif(host, vlanID);
        if !ok {
          return;
        }
        ctx.md := ctx.md.(client := Some(index));
      }
    } else {
      ctx.md := ctx.md.(client := Some(host));
    }
    // read again when the bridge is joined
    ctx.md := ctx.md.(vlan := Some(vlanID));
  }

  method DelSubIf(ctx: Metadata)
    modifies ctx
    ensures ctx.md == AfterDelSubIf(old(ctx.md))
  {
    if ctx.md.client.Some? {
      ctx.md := ctx.md.(client := None);
      ctx.md := ctx.md.(vlan := None);
    }
  }

  ghost function AnyFound(interfaces: Interfaces, device: string, vlanID: nat): (f: Found)
    ensures FoundIn(interfaces, device, vlanID, f)
  {
    Found(if exists i :: i in interfaces && IsSub(interfaces[i], device, vlanID)
          then var i :| i in interfaces && IsSub(interfaces[i], device, vlanID); Some(i) else None,
          if exists i :: i in interfaces && IsHost(interfaces[i], device)
          then var i :| i in interfaces && IsHost(interfaces[i], device); Some(i) else None)
  }
}
