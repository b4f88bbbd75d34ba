/** VPP's interfaces and bridge domains, as far as bridging and VLAN sub-interfaces use them. An interface
    is a member of at most one bridge domain: enabling it on another one moves it. */
module L2Vpp {
  import opened Collections
  import opened Vpp

  type IfIndex = nat

  datatype IfType = HARDWARE | SUB

  datatype IfDetails = IfDetails(name: string, ifType: IfType, subID: nat)

  datatype L2State = L2State(interfaces: map<IfIndex, IfDetails>, domains: set<nat>, member: map<IfIndex, nat>, calls: nat)

  /** A call that found VPP unwilling still counts as a call. */
  function Called(v: L2State): L2State {
    v.(calls := v.calls + 1)
  }

  function SubIfName(parent: string, vlanID: nat): string {
    parent + "." + Digits(vlanID)
  }

  // ---- What each call does, given whether VPP is willing ----

  function AfterBridgeAdd(o: Oracle, v: L2State): (L2State, bool, nat) {
    var r := o(v.calls);
    var id := Allocate(v.domains, r.hint);
    if r.ok then (Called(v).(domains := v.domains + {id}), true, id) else (Called(v), false, 0)
  }

  /** A domain that still has members is in use and cannot be deleted. */
  function AfterBridgeDel(o: Oracle, v: L2State, id: nat): (L2State, bool) {
    if o(v.calls).ok && id in v.domains && id !in v.member.Values
    then (Called(v).(domains := v.domains - {id}), true) else (Called(v), false)
  }

  function AfterSetBridge(o: Oracle, v: L2State, swIfIndex: IfIndex, id: nat, enable: bool): (L2State, bool) {
    if !o(v.calls).ok || id !in v.domains then (Called(v), false)
    else if enable then (Called(v).(member := v.member[swIfIndex := id]), true)
    else (Called(v).(member := v.member - {swIfIndex}), true)
  }

  function AfterDeleteSubif(o: Oracle, v: L2State, swIfIndex: IfIndex): (L2State, bool) {
    if o(v.calls).ok && swIfIndex in v.interfaces && v.interfaces[swIfIndex].ifType == SUB
    then (Called(v).(interfaces := v.interfaces - {swIfIndex}, member := v.member - {swIfIndex}), true)
    else (Called(v), false)
  }

  function AfterCreateVlanSubif(o: Oracle, v: L2State, host: IfIndex, vlanID: nat): (L2State, bool, IfIndex) {
    var r := o(v.calls);
    var index := Allocate(v.interfaces.Keys, r.hint);
    if r.ok && host in v.interfaces
    then (Called(v).(interfaces := v.interfaces[index := IfDetails(SubIfName(v.interfaces[host].name, vlanID), SUB, vlanID)]),
          true, index)
    else (Called(v), false, 0)
  }

  class L2Conn {
    const oracle: Oracle
    var v: L2State

    constructor (oracle: Oracle, v: L2State)
      ensures this.oracle == oracle && this.v == v
    {
      this.oracle, this.v := oracle, v;
    }

    method BridgeDomainAdd() returns (ok: bool, id: nat)
      modifies this
      ensures (v, ok, id) == AfterBridgeAdd(oracle, old(v))
    {
      var r := AfterBridgeAdd(oracle, v);
      v, ok, id := r.0, r.1, r.2;
    }

    method BridgeDomainDel(id: nat) returns (ok: bool)
      modifies this
      ensures (v, ok) == AfterBridgeDel(oracle, old(v), id)
    {
      var r := AfterBridgeDel(oracle, v, id);
      v, ok := r.0, r.1;
    }

    method SwInterfaceSetL2Bridge(swIfIndex: IfIndex, id: nat, enable: bool) returns (ok: bool)
      modifies this
      ensures (v, ok) == AfterSetBridge(oracle, old(v), swIfIndex, id, enable)
    {
      var r := AfterSetBridge(oracle, v, swIfIndex, id, enable);
      v, ok := r.0, r.1;
    }

    method DeleteSubif(swIfIndex: IfIndex) returns (ok: bool)
      modifies this
      ensures (v, ok) == AfterDeleteSubif(oracle, old(v), swIfIndex)
    {
      var r := AfterDeleteSubif(oracle, v, swIfIndex);
      v, ok := r.0, r.1;
    }

    method CreateVlanSubif(host: IfIndex, vlanID: nat) returns (ok: bool, index: IfIndex)
      modifies this
      ensures (v, ok, index) == AfterCreateVlanSubif(oracle, old(v), host, vlanID)
    {
      var r := AfterCreateVlanSubif(oracle, v, host, vlanID);
      v, ok, index := r.0, r.1, r.2;
    }
  }
}
