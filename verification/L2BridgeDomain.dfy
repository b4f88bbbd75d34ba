/** Bridge domains shared between connections (pkg/networkservice/xconnect/l2bridgedomain). */
module L2BridgeDomain {
  import opened Collections
  import opened Wrappers
  import opened Vpp
  import opened L2Vpp

  datatype Bridge = Bridge(id: nat, attached: set<IfIndex>)

  datatype Key = Key(vlanID: nat, clientIfIndex: IfIndex)

  type Bridges = map<Key, Bridge>

  /** The metadata of one connection that bridging reads. */
  datatype Md = Md(client: Option<IfIndex>, server: Option<IfIndex>, vlan: Option<nat>)

  datatype State = State(bridges: Bridges, v: L2State)

  /** The state and the metadata after an operation, and whether it returned no error. */
  datatype Outcome = Outcome(s: State, md: Md, ok: bool)

  // ---- Specification of the operations ----

  function AttachServer(o: Oracle, s: State, key: Key, server: IfIndex): (State, bool)
    requires key in s.bridges
  {
    var b := s.bridges[key];
    if server in b.attached then (s, true)
    else
      var (v, ok) := AfterSetBridge(o, s.v, server, b.id, true);
      if ok then (State(s.bridges[key := b.(attached := b.attached + {server})], v), true) else (s.(v := v), false)
  }

  function EnsureBridge(o: Oracle, s: State, key: Key): (State, bool) {
    if key in s.bridges then (s, true)
    else
      var (v, ok, id) := AfterBridgeAdd(o, s.v);
      if ok then (State(s.bridges[key := Bridge(id, {})], v), true) else (s.(v := v), false)
  }

  /** The bridge of `key` is created if it is new, then the server and the client interface are attached. */
  function JoinBridge(o: Oracle, s: State, key: Key, server: IfIndex): (State, bool) {
    var (s1, ok1) := EnsureBridge(o, s, key);
    if !ok1 then (s1, false)
    else
      var (s2, ok2) := AttachServer(o, s1, key, server);
      if !ok2 then (s2, false) else AttachServer(o, s2, key, key.clientIfIndex)
  }

  function AfterAdd(o: Oracle, s: State, md: Md, vlanID: nat): Outcome {
    if md.client.None? || md.server.None? then Outcome(s, md, true)
    else
      var (s', ok) := JoinBridge(o, s, Key(vlanID, md.client.value), md.server.value);
      Outcome(s', md, ok)
  }

  function DetachServer(o: Oracle, s: State, key: Key, server: IfIndex): (State, bool)
    requires key in s.bridges
  {
    var b := s.bridges[key];
    if server !in b.attached then (s, true)
    else
      var (v, ok) := AfterSetBridge(o, s.v, server, b.id, false);
      if ok then (State(s.bridges[key := b.(attached := b.attached - {server})], v), true) else (s.(v := v), false)
  }

  function AfterDelSubIf(o: Oracle, v: L2State, md: Md, vlanID: nat, swIfIndex: IfIndex): (L2State, Md, bool) {
    if vlanID == 0 then (v, md.(client := None), true)
    else
      var (v', ok) := AfterDeleteSubif(o, v, swIfIndex);
      (v', md, ok)
  }

  /** The teardown that starts when only the client interface is left. */
  function TearDown(o: Oracle, s: State, md: Md, key: Key): Outcome
    requires key in s.bridges
  {
    var b := s.bridges[key];
    var (v1, ok1) := AfterSetBridge(o, s.v, key.clientIfIndex, b.id, false);
    if !ok1 then Outcome(s.(v := v1), md, false)
    else
      var (v2, md', ok2) := AfterDelSubIf(o, v1, md, key.vlanID, key.clientIfIndex);
      if !ok2 then Outcome(s.(v := v2), md', false)
      else
        var bridges := s.bridges[key := b.(attached := b.attached - {key.clientIfIndex})];
        var (v3, ok3) := AfterBridgeDel(o, v2, b.id);
        if !ok3 then Outcome(State(bridges, v3), md', false)
        else Outcome(State(bridges - {key}, v3), md', true)
  }

  function AfterDel(o: Oracle, s: State, md: Md, vlanID: nat): Outcome {
    if md.client.None? then Outcome(s, md, true)
    else
      var key := Key(vlanID, md.client.value);
      if key !in s.bridges then Outcome(s, md, true)
      else
        var (s1, ok1) := if md.server.Some? then DetachServer(o, s, key, md.server.value) else (s, true);
        if !ok1 then Outcome(s1, md, false)
        else if s1.bridges[key].attached == {key.clientIfIndex} then TearDown(o, s1, md, key)
        else Outcome(s1, md, true)
  }

  function AfterClose(o: Oracle, s: State, md: Md, isEthernet: bool): Outcome {
    if md.vlan.None? || !isEthernet then Outcome(s, md, true)
    else AfterDel(o, s, md, md.vlan.value).(ok := true)
  }

  /** `Request`, given whether the rest of the chain succeeded; a failed attachment closes the connection. */
  function AfterRequest(o: Oracle, s: State, md: Md, isEthernet: bool, nextOk: bool): Outcome {
    if !isEthernet || !nextOk then Outcome(s, md, nextOk)
    else if md.vlan.None? then Outcome(s, md, true)
    else
      var added := AfterAdd(o, s, md, md.vlan.value);
      if added.ok then added
      else AfterClose(o, added.s, added.md, isEthernet).(ok := false)
  }

  // ---- What every step keeps ----

  /** The live bridge domains are those of the map, one for each key. */
  ghost predicate OneDomainPerKey(bridges: Bridges, domains: set<nat>) {
    && domains == (set k | k in bridges :: bridges[k].id)
    && forall k, l :: k in bridges && l in bridges && bridges[k].id == bridges[l].id ==> k == l
  }

  /** VPP's members of a bridge are attached to it, and what is attached is a member or the client interface. */
  ghost predicate MembersAttached(b: Bridge, client: IfIndex, member: map<IfIndex, nat>) {
    && (forall i :: i in member && member[i] == b.id ==> i in b.attached)
    && (forall i :: i in b.attached ==> i == client || (i in member && member[i] == b.id))
  }

  /** The bridge map and VPP agree. */
  ghost predicate Consistent(s: State) {
    && OneDomainPerKey(s.bridges, s.v.domains)
    && (forall k :: k in s.bridges ==> MembersAttached(s.bridges[k], k.clientIfIndex, s.v.member))
    && s.v.member.Values <= s.v.domains
  }

  ghost predicate OnlyUnder(s: State, key: Key, i: IfIndex) {
    forall k :: k in s.bridges && k != key ==> i !in s.bridges[k].attached
  }

  /** How interfaces may be shared: those of the connection are attached under its own key only. */
  ghost predicate Exclusive(s: State, md: Md) {
    md.client.Some? && md.vlan.Some? ==>
      && OnlyUnder(s, Key(md.vlan.value, md.client.value), md.client.value)
      && (md.server.Some? ==> OnlyUnder(s, Key(md.vlan.value, md.client.value), md.server.value))
  }

  lemma NewKeyKeepsDomains(bridges: Bridges, domains: set<nat>, key: Key, id: nat)
    requires OneDomainPerKey(bridges, domains) && key !in bridges && id !in domains
    ensures OneDomainPerKey(bridges[key := Bridge(id, {})], domains + {id})
  {
    var bridges' := bridges[key := Bridge(id, {})];
    assert forall k :: k in bridges' <==> k == key || k in bridges;
    assert forall k :: k in bridges ==> bridges'[k].id == bridges[k].id;
    assert bridges'[key].id == id;
  }

  lemma EnsureBridgeKeeps(o: Oracle, s: State, key: Key)
    requires Consistent(s)
    ensures var (s', ok) := EnsureBridge(o, s, key);
            && Consistent(s')
            && (ok ==> s'.bridges == if key in s.bridges then s.bridges else s.bridges[key := Bridge(s'.bridges[key].id, {})])
            && (!ok ==> s'.bridges == s.bridges)
  {
    var (s', ok) := EnsureBridge(o, s, key);
    if ok && key !in s.bridges {
      NewKeyKeepsDomains(s.bridges, s.v.domains, key, s'.bridges[key].id);
      assert forall i :: i in s.v.member ==> s.v.member[i] in s.v.domains;
    }
  }

  /** Changing what is attached to a bridge leaves the domains alone. */
  lemma ReattachKeepsDomains(bridges: Bridges, domains: set<nat>, key: Key, attached: set<IfIndex>)
    requires OneDomainPerKey(bridges, domains) && key in bridges
    ensures OneDomainPerKey(bridges[key := bridges[key].(attached := attached)], domains)
  {
    var bridges' := bridges[key := bridges[key].(attached := attached)];
    assert bridges'.Keys == bridges.Keys;
    assert forall k :: k in bridges ==> bridges'[k].id == bridges[k].id;
  }

  lemma AttachKeeps(o: Oracle, s: State, key: Key, i: IfIndex)
    requires Consistent(s) && key in s.bridges && OnlyUnder(s, key, i)
    ensures var (s', ok) := AttachServer(o, s, key, i);
            && Consistent(s')
            && s'.bridges == if ok then s.bridges[key := s.bridges[key].(attached := s.bridges[key].attached + {i})] else s.bridges
  {
    var (s', ok) := AttachServer(o, s, key, i);
    var b := s.bridges[key];
    if i in b.attached {
      assert b.attached + {i} == b.attached;
      assert s.bridges[key := b] == s.bridges;
    } else if ok {
      ReattachKeepsDomains(s.bridges, s.v.domains, key, b.attached + {i});
      forall k | k in s'.bridges
        ensures MembersAttached(s'.bridges[k], k.clientIfIndex, s'.v.member)
      {
        assert MembersAttached(s.bridges[k], k.clientIfIndex, s.v.member);
        assert k != key ==> s.bridges[k].id != b.id;
      }
    }
  }

  lemma DetachKeeps(o: Oracle, s: State, key: Key, i: IfIndex)
    requires Consistent(s) && key in s.bridges && OnlyUnder(s, key, i)
    ensures var (s', ok) := DetachServer(o, s, key, i);
            && Consistent(s')
            && s'.bridges == if ok then s.bridges[key := s.bridges[key].(attached := s.bridges[key].attached - {i})] else s.bridges
  {
    var (s', ok) := DetachServer(o, s, key, i);
    var b := s.bridges[key];
    if i !in b.attached {
      assert b.attached - {i} == b.attached;
      assert s.bridges[key := b] == s.bridges;
    } else if ok {
      ReattachKeepsDomains(s.bridges, s.v.domains, key, b.attached - {i});
      forall k | k in s'.bridges
        ensures MembersAttached(s'.bridges[k], k.clientIfIndex, s'.v.member)
      {
        assert MembersAttached(s.bridges[k], k.clientIfIndex, s.v.member);
      }
    }
  }

  /** Taking the client interface out of VPP keeps the agreement: what is attached may still name it. */
  lemma ClientLeavesKeeps(s: State, key: Key, member: map<IfIndex, nat>)
    requires Consistent(s) && key in s.bridges && OnlyUnder(s, key, key.clientIfIndex)
    requires member == s.v.member - {key.clientIfIndex}
    ensures Consistent(s.(v := s.v.(member := member)))
  {
    forall k | k in s.bridges
      ensures MembersAttached(s.bridges[k], k.clientIfIndex, member)
    {
      assert MembersAttached(s.bridges[k], k.clientIfIndex, s.v.member);
    }
  }

  /** However far the teardown gets before a call fails, map and VPP agree afterwards. */
  lemma TearDownKeeps(o: Oracle, s: State, md: Md, key: Key)
    requires Consistent(s) && key in s.bridges && OnlyUnder(s, key, key.clientIfIndex)
    requires s.bridges[key].attached == {key.clientIfIndex}
    ensures Consistent(TearDown(o, s, md, key).s)
  {
    var b, client := s.bridges[key], key.clientIfIndex;
    var member := s.v.member - {client};
    ClientLeavesKeeps(s, key, member);
    assert MembersAttached(b, client, s.v.member);
    assert b.id !in member.Values;
    assert member - {client} == member;
    var (v1, ok1) := AfterSetBridge(o, s.v, client, b.id, false);
    if ok1 {
      var (v2, md', ok2) := AfterDelSubIf(o, v1, md, key.vlanID, client);
      assert v1.member == v2.member == member && v2.domains == s.v.domains;
      if ok2 {
        var bridges := s.bridges[key := b.(attached := {})];
        assert b.attached - {client} == {};
        ReattachKeepsDomains(s.bridges, s.v.domains, key, {});
        assert Consistent(State(bridges, v2));
        var (v3, ok3) := AfterBridgeDel(o, v2, b.id);
        if ok3 {
          DroppedKeyKeepsDomains(bridges, v2.domains, key);
          assert (bridges - {key}).Keys == bridges.Keys - {key};
          assert Consistent(State(bridges - {key}, v3));
        } else {
          assert Consistent(State(bridges, v3));
        }
      }
    }
  }

  lemma DroppedKeyKeepsDomains(bridges: Bridges, domains: set<nat>, key: Key)
    requires OneDomainPerKey(bridges, domains) && key in bridges
    ensures OneDomainPerKey(bridges - {key}, domains - {bridges[key].id})
  {
    var ids := set k | k in bridges - {key} :: (bridges - {key})[k].id;
    forall d
      ensures d in domains - {bridges[key].id} <==> d in ids
    {
      if d in domains - {bridges[key].id} {
        var k :| k in bridges && bridges[k].id == d;
        assert k in bridges - {key};
      }
    }
  }

  /** Whatever calls fail, a request keeps map and VPP in agreement. */
  lemma RequestKeepsConsistent(o: Oracle, s: State, md: Md, isEthernet: bool, nextOk: bool)
    requires Consistent(s) && Exclusive(s, md)
    ensures Consistent(AfterRequest(o, s, md, isEthernet, nextOk).s)
  {
    if isEthernet && nextOk && md.vlan.Some? && md.client.Some? && md.server.Some? {
      var added := AfterAdd(o, s, md, md.vlan.value);
      var key := Key(md.vlan.value, md.client.value);
      EnsureBridgeKeeps(o, s, key);
      var s1 := EnsureBridge(o, s, key).0;
      if EnsureBridge(o, s, key).1 {
        AttachKeeps(o, s1, key, md.server.value);
        AttachKeeps(o, AttachServer(o, s1, key, md.server.value).0, key, md.client.value);
      }
      assert Consistent(added.s) && Exclusive(added.s, md);
      CloseKeepsConsistent(o, added.s, md, isEthernet);
    } else if isEthernet && nextOk && md.vlan.Some? {
      assert AfterAdd(o, s, md, md.vlan.value) == Outcome(s, md, true);
    }
  }

  lemma CloseKeepsConsistent(o: Oracle, s: State, md: Md, isEthernet: bool)
    requires Consistent(s) && Exclusive(s, md)
    ensures Consistent(AfterClose(o, s, md, isEthernet).s)
  {
    if isEthernet && md.vlan.Some? && md.client.Some? {
      var key := Key(md.vlan.value, md.client.value);
      if key in s.bridges {
        if md.server.Some? { DetachKeeps(o, s, key, md.server.value); }
        var s1 := if md.server.Some? then DetachServer(o, s, key, md.server.value).0 else s;
        if s1.bridges[key].attached == {key.clientIfIndex} {
          TearDownKeeps(o, s1, md, key);
        }
      }
    }
  }

  // ---- A first request ----

  function AttachedTo(s: State, key: Key): set<IfIndex> {
    if key in s.bridges then s.bridges[key].attached else {}
  }

  /** The calls of a first request: the bridge if it is new, the server interface, the client interface if it is not
      attached yet, and after a failure of that the detachment of the server interface. */
  function ServerCall(s: State, key: Key): nat {
    s.v.calls + if key in s.bridges then 0 else 1
  }

  /** VPP accepts the server interface, and before it the bridge if that is new. */
  predicate TakesServer(o: Oracle, s: State, key: Key) {
    (key in s.bridges || o(s.v.calls).ok) && o(ServerCall(s, key)).ok
  }

  predicate TakesClient(o: Oracle, s: State, key: Key) {
    key.clientIfIndex in AttachedTo(s, key) || o(ServerCall(s, key) + 1).ok
  }

  /** Attached to no bridge, and a member of none. */
  ghost predicate Nowhere(s: State, i: IfIndex) {
    Unattached(s, i) && i !in s.v.member
  }

  ghost predicate Unattached(s: State, i: IfIndex) {
    forall k :: k in s.bridges ==> i !in s.bridges[k].attached
  }

  lemma UnattachedIsNowhere(s: State, i: IfIndex)
    requires Consistent(s) && Unattached(s, i)
    ensures Nowhere(s, i)
  {
    forall j | j in s.v.member
      ensures j != i
    {
      assert s.v.member[j] in s.v.domains;
      var k :| k in s.bridges && s.bridges[k].id == s.v.member[j];
      assert MembersAttached(s.bridges[k], k.clientIfIndex, s.v.member);
    }
  }

  ghost predicate KeepsUnder(s: State, s': State, key: Key) {
    OnlyUnder(s, key, key.clientIfIndex) ==> OnlyUnder(s', key, key.clientIfIndex)
  }

  /** The server interface has been attached, to a bridge that is new if it has to be. */
  ghost predicate ServerIn(s: State, s': State, key: Key, server: IfIndex) {
    && key in s'.bridges && s'.bridges == s.bridges[key := s'.bridges[key]]
    && s'.bridges[key].attached == AttachedTo(s, key) + {server} && s'.v.calls == ServerCall(s, key) + 1
  }

  lemma ServerOutcome(o: Oracle, s: State, key: Key, server: IfIndex)
    requires Consistent(s) && Unattached(s, server)
    ensures var (s1, ok1) := EnsureBridge(o, s, key);
            if !ok1 then !TakesServer(o, s, key) && Consistent(s1) && Unattached(s1, server) && KeepsUnder(s, s1, key)
            else
              var (s2, ok2) := AttachServer(o, s1, key, server);
              && key in s1.bridges && Consistent(s2) && (ok2 <==> TakesServer(o, s, key))
              && if ok2 then ServerIn(s, s2, key, server) else Unattached(s2, server) && KeepsUnder(s, s2, key)
  {
    EnsureOutcome(o, s, key);
    var (s1, ok1) := EnsureBridge(o, s, key);
    SameUnder(s, s1, key);
    hide EnsureBridge, AttachServer, Consistent, OnlyUnder;
    if ok1 {
      StillUnder(s, s1, key, server);
      StillUnder(s, s1, key, key.clientIfIndex);
      AttachOutcome(o, s1, key, server);
      assert server !in AttachedTo(s, key);
      var s2 := AttachServer(o, s1, key, server).0;
      SameUnder(s1, s2, key);
      TwiceUpdated(s.bridges, s1.bridges, s2.bridges, key);
    }
  }

  lemma SameUnder(s: State, s': State, key: Key)
    ensures s'.bridges == s.bridges ==> KeepsUnder(s, s', key)
  {
  }

  lemma TwiceUpdated(a: Bridges, b: Bridges, c: Bridges, key: Key)
    requires key in b && b == a[key := b[key]]
    ensures key in c && c == b[key := c[key]] ==> c == a[key := c[key]]
  {
  }

  lemma ClientOutcome(o: Oracle, s: State, s2: State, key: Key, server: IfIndex)
    requires Consistent(s2) && ServerIn(s, s2, key, server) && OnlyUnder(s, key, key.clientIfIndex) && server != key.clientIfIndex
    ensures var (s', ok) := AttachServer(o, s2, key, key.clientIfIndex);
            && Consistent(s') && (ok <==> TakesClient(o, s, key)) && key in s'.bridges && s'.bridges == s.bridges[key := s'.bridges[key]]
            && s'.bridges[key].attached == AttachedTo(s, key) + {server} + (if ok then {key.clientIfIndex} else {})
            && s'.v.calls == ServerCall(s, key) + (if key.clientIfIndex in AttachedTo(s, key) then 1 else 2)
  {
    hide Consistent, OnlyUnder, AttachServer;
    StillUnder(s, s2, key, key.clientIfIndex);
    AttachOutcome(o, s2, key, key.clientIfIndex);
    var s' := AttachServer(o, s2, key, key.clientIfIndex).0;
    TwiceUpdated(s.bridges, s2.bridges, s'.bridges, key);
  }

  /** How far the attachments get. */
  lemma JoinOutcome(o: Oracle, s: State, key: Key, server: IfIndex)
    requires Consistent(s) && Unattached(s, server) && OnlyUnder(s, key, key.clientIfIndex) && server != key.clientIfIndex
    ensures var (s', ok) := JoinBridge(o, s, key, server);
            && Consistent(s') && (ok <==> TakesServer(o, s, key) && TakesClient(o, s, key))
            && (!TakesServer(o, s, key) ==> Unattached(s', server) && OnlyUnder(s', key, key.clientIfIndex))
            && (TakesServer(o, s, key) ==>
                  && key in s'.bridges && s'.bridges == s.bridges[key := s'.bridges[key]]
                  && s'.bridges[key].attached == AttachedTo(s, key) + {server} + (if ok then {key.clientIfIndex} else {})
                  && s'.v.calls == ServerCall(s, key) + (if key.clientIfIndex in AttachedTo(s, key) then 1 else 2))
  {
    hide EnsureBridge, AttachServer, Consistent, Unattached, OnlyUnder, TakesServer, TakesClient, AttachedTo, ServerCall, ServerIn;
    ServerOutcome(o, s, key, server);
    var (s1, ok1) := EnsureBridge(o, s, key);
    if ok1 {
      var (s2, ok2) := AttachServer(o, s1, key, server);
      if ok2 { ClientOutcome(o, s, s2, key, server); }
    }
  }

  /** A first request, at every point of failure. It succeeds exactly if VPP takes the bridge, the server interface and the
      client interface, as far as they are asked for, and then both interfaces are attached. If VPP refuses the client
      interface the request closes itself: the server interface is attached nowhere and a member of no domain if VPP
      accepts that it is detached, and both if not. If VPP has refused something before, it is nowhere. */
  lemma FirstRequestOutcome(o: Oracle, s: State, client: IfIndex, server: IfIndex, vlanID: nat)
    requires var md, key := Md(Some(client), Some(server), Some(vlanID)), Key(vlanID, client);
             Consistent(s) && Unattached(s, server) && OnlyUnder(s, key, client) && server != client
    ensures var md, key := Md(Some(client), Some(server), Some(vlanID)), Key(vlanID, client);
            var before := AttachedTo(s, key);
            var Outcome(s', md', ok) := AfterRequest(o, s, md, true, true);
            var n := s.v.calls + if key in s.bridges then 0 else 1;
            var taken := (key in s.bridges || o(s.v.calls).ok) && o(n).ok;
            && Consistent(s') && (ok <==> taken && (client in before || o(n + 1).ok))
            && (ok ==> AttachedTo(s', key) == before + {server, client} && md' == md)
            && (taken && !ok ==> AttachedTo(s', key) == before + (if o(n + 2).ok then {} else {server}))
            && (!ok && (taken ==> o(n + 2).ok) ==> server !in s'.v.member && forall k :: k in s'.bridges ==> server !in s'.bridges[k].attached)
            && (taken && !ok && !o(n + 2).ok ==> server in s'.v.member && s'.v.member[server] == s'.bridges[key].id)
  {
    var md, key := Md(Some(client), Some(server), Some(vlanID)), Key(vlanID, client);
    hide JoinBridge, AfterDel, Consistent, Unattached, OnlyUnder, AfterRequest;
    JoinOutcome(o, s, key, server);
    RequestParts(o, s, md, key);
    UnattachedHere(s, key, server);
    var (s1, joined) := JoinBridge(o, s, key, server);
    if !joined {
      if TakesServer(o, s, key) {
        StillUnder(s, s1, key, server);
        StillUnder(s, s1, key, client);
        Unjoined(o, s1, md, key);
      } else {
        NeverJoined(o, s1, md, key);
      }
    }
  }

  /** Only a connection that carries Ethernet, has both interfaces and was given a VLAN client is bridged. */
  lemma OthersUnbridged(o: Oracle, s: State, md: Md, isEthernet: bool, nextOk: bool)
    ensures !isEthernet || !nextOk || md.vlan.None? || md.client.None? || md.server.None? ==>
            AfterRequest(o, s, md, isEthernet, nextOk) == Outcome(s, md, nextOk)
    ensures !isEthernet || md.vlan.None? || md.client.None? || Key(md.vlan.value, md.client.value) !in s.bridges ==>
            AfterClose(o, s, md, isEthernet) == Outcome(s, md, true)
    ensures AfterClose(o, s, md, isEthernet).ok
  {
    hide JoinBridge, TearDown, DetachServer;
  }

  lemma UnattachedHere(s: State, key: Key, i: IfIndex)
    requires Unattached(s, i)
    ensures i !in AttachedTo(s, key)
  {
  }

  lemma RequestParts(o: Oracle, s: State, md: Md, key: Key)
    requires md.server.Some? && md == Md(Some(key.clientIfIndex), md.server, Some(key.vlanID))
    ensures var (s1, joined) := JoinBridge(o, s, key, md.server.value);
            var r := AfterRequest(o, s, md, true, true);
            && r.ok == joined && (joined ==> r.s == s1 && r.md == md)
            && (!joined ==> r.s == AfterDel(o, s1, md, key.vlanID).s)
  {
    hide JoinBridge, AfterDel;
  }

  /** Closing a request whose client interface was refused. */
  lemma Unjoined(o: Oracle, s: State, md: Md, key: Key)
    requires Consistent(s) && md.server.Some? && md == Md(Some(key.clientIfIndex), md.server, Some(key.vlanID)) && Exclusive(s, md)
    requires key in s.bridges && md.server.value in s.bridges[key].attached && key.clientIfIndex !in s.bridges[key].attached
    ensures var closed, server := AfterDel(o, s, md, key.vlanID), md.server.value;
            && Consistent(closed.s) && key in closed.s.bridges
            && closed.s.bridges[key].attached == s.bridges[key].attached - (if o(s.v.calls).ok then {server} else {})
            && if o(s.v.calls).ok then server !in closed.s.v.member && forall k :: k in closed.s.bridges ==> server !in closed.s.bridges[k].attached
               else server in closed.s.v.member && closed.s.v.member[server] == closed.s.bridges[key].id
  {
    var server := md.server.value;
    CloseKeepsConsistent(o, s, md, true);
    DomainOfKey(s, key);
    assert MembersAttached(s.bridges[key], key.clientIfIndex, s.v.member);
    var s' := DetachServer(o, s, key, server).0;
    assert AfterDel(o, s, md, key.vlanID).s == s';
    if o(s.v.calls).ok {
      assert Unattached(s', server);
      UnattachedIsNowhere(s', server);
    }
    hide Consistent;
  }

  /** Closing a request whose server interface was not attached attaches it nowhere. */
  lemma NeverJoined(o: Oracle, s: State, md: Md, key: Key)
    requires Consistent(s) && md.server.Some? && md == Md(Some(key.clientIfIndex), md.server, Some(key.vlanID)) && OnlyUnder(s, key, key.clientIfIndex)
    requires Unattached(s, md.server.value)
    ensures var closed, server := AfterDel(o, s, md, key.vlanID), md.server.value;
            Consistent(closed.s) && server !in closed.s.v.member && forall k :: k in closed.s.bridges ==> server !in closed.s.bridges[k].attached
  {
    CloseKeepsConsistent(o, s, md, true);
    var s' := AfterDel(o, s, md, key.vlanID).s;
    if key in s.bridges {
      assert DetachServer(o, s, key, md.server.value) == (s, true);
      if s.bridges[key].attached == {key.clientIfIndex} { DownAttaches(o, s, md, key); }
    }
    assert Unattached(s', md.server.value);
    UnattachedIsNowhere(s', md.server.value);
    hide Consistent;
  }

  /** The teardown attaches nothing. */
  lemma DownAttaches(o: Oracle, s: State, md: Md, key: Key)
    requires key in s.bridges
    ensures forall k :: k in TearDown(o, s, md, key).s.bridges ==> k in s.bridges && TearDown(o, s, md, key).s.bridges[k].attached <= s.bridges[k].attached
  {
    hide AfterBridgeDel, AfterSetBridge, AfterDelSubIf;
  }

  lemma StillUnder(s: State, s': State, key: Key, i: IfIndex)
    requires key in s'.bridges && s'.bridges == s.bridges[key := s'.bridges[key]]
    ensures OnlyUnder(s, key, i) ==> OnlyUnder(s', key, i)
    ensures Unattached(s, i) ==> OnlyUnder(s', key, i)
    ensures Unattached(s, i) && i !in s'.bridges[key].attached ==> Unattached(s', i)
  {
  }

  lemma EnsureOutcome(o: Oracle, s: State, key: Key)
    requires Consistent(s)
    ensures var (s', ok) := EnsureBridge(o, s, key);
            && Consistent(s') && (ok <==> key in s.bridges || o(s.v.calls).ok)
            && s'.v.calls == ServerCall(s, key) && s'.v.member == s.v.member
            && (ok ==> key in s'.bridges && s'.bridges == s.bridges[key := s'.bridges[key]] && s'.bridges[key].attached == AttachedTo(s, key))
            && (!ok ==> s'.bridges == s.bridges)
  {
    EnsureBridgeKeeps(o, s, key);
  }

  lemma AttachOutcome(o: Oracle, s: State, key: Key, i: IfIndex)
    requires Consistent(s) && key in s.bridges && OnlyUnder(s, key, i)
    ensures var (s', ok) := AttachServer(o, s, key, i);
            var b := s.bridges[key];
            && Consistent(s') && (ok <==> i in b.attached || o(s.v.calls).ok)
            && s'.v.calls == s.v.calls + (if i in b.attached then 0 else 1)
            && (ok ==> s'.bridges == s.bridges[key := b.(attached := b.attached + {i})])
            && (!ok ==> s'.bridges == s.bridges && s'.v.member == s.v.member)
  {
    DomainOfKey(s, key);
    AttachKeeps(o, s, key, i);
  }

  // ---- Without failures ----

  lemma DomainOfKey(s: State, key: Key)
    requires Consistent(s) && key in s.bridges
    ensures s.bridges[key].id in s.v.domains
  {
  }

  lemma AttachSucceeds(o: Oracle, s: State, key: Key, i: IfIndex)
    requires NeverFails(o) && Consistent(s) && key in s.bridges && OnlyUnder(s, key, i)
    ensures var (s', ok) := AttachServer(o, s, key, i);
            && ok && Consistent(s') && s'.v.interfaces == s.v.interfaces
            && s'.bridges == s.bridges[key := s.bridges[key].(attached := s.bridges[key].attached + {i})]
  {
    DomainOfKey(s, key);
    AttachKeeps(o, s, key, i);
  }

  lemma DetachSucceeds(o: Oracle, s: State, key: Key, i: IfIndex)
    requires NeverFails(o) && Consistent(s) && key in s.bridges && OnlyUnder(s, key, i)
    ensures var (s', ok) := DetachServer(o, s, key, i);
            && ok && Consistent(s') && s'.v.interfaces == s.v.interfaces
            && s'.bridges == s.bridges[key := s.bridges[key].(attached := s.bridges[key].attached - {i})]
  {
    DomainOfKey(s, key);
    DetachKeeps(o, s, key, i);
  }

  lemma EnsureSucceeds(o: Oracle, s: State, key: Key)
    requires NeverFails(o) && Consistent(s)
    ensures var (s', ok) := EnsureBridge(o, s, key);
            && ok && Consistent(s') && s'.v.interfaces == s.v.interfaces && key in s'.bridges
            && s'.bridges == s.bridges[key := s'.bridges[key]]
            && s'.bridges[key].attached == if key in s.bridges then s.bridges[key].attached else {}
  {
    EnsureBridgeKeeps(o, s, key);
  }

  /** Both interfaces end up attached, on a bridge of their key's own, and nothing else changes. */
  lemma JoinSucceeds(o: Oracle, s: State, key: Key, server: IfIndex)
    requires NeverFails(o) && Consistent(s) && OnlyUnder(s, key, server) && OnlyUnder(s, key, key.clientIfIndex)
    ensures var (s', ok) := JoinBridge(o, s, key, server);
            && ok && Consistent(s') && s'.v.interfaces == s.v.interfaces && key in s'.bridges
            && s'.bridges == s.bridges[key := s'.bridges[key]]
            && s'.bridges[key].attached ==
                 (if key in s.bridges then s.bridges[key].attached else {}) + {server, key.clientIfIndex}
  {
    EnsureSucceeds(o, s, key);
    var (s1, ok1) := EnsureBridge(o, s, key);
    AttachSucceeds(o, s1, key, server);
    var (s2, ok2) := AttachServer(o, s1, key, server);
    AttachSucceeds(o, s2, key, key.clientIfIndex);
    var b1, b2 := s1.bridges[key], s2.bridges[key];
    LastUpdateWins(s.bridges, key, b1, b2);
    LastUpdateWins(s.bridges, key, b2, b2.(attached := b2.attached + {key.clientIfIndex}));
  }

  /** A server interface has left the bridge of `key`. If that left the client interface alone, the bridge
      and the sub-interface are gone too. */
  ghost predicate Deleted(s: State, s': State, key: Key, server: IfIndex)
    requires key in s.bridges
  {
    var left := s.bridges[key].attached - {server};
    if left == {key.clientIfIndex}
    then s'.bridges == s.bridges - {key} &&
         s'.v.interfaces == if key.vlanID == 0 then s.v.interfaces else s.v.interfaces - {key.clientIfIndex}
    else s'.bridges == s.bridges[key := s.bridges[key].(attached := left)] && s'.v.interfaces == s.v.interfaces
  }

  lemma DelSucceeds(o: Oracle, s: State, md: Md, vlanID: nat)
    requires NeverFails(o) && Consistent(s) && Exclusive(s, md)
    requires md.client.Some? && md.server.Some? && md.vlan == Some(vlanID)
    requires Key(vlanID, md.client.value) in s.bridges
    requires vlanID != 0 ==> md.client.value in s.v.interfaces && s.v.interfaces[md.client.value].ifType == SUB
    ensures var deleted := AfterDel(o, s, md, vlanID);
            && deleted.ok && Consistent(deleted.s) && Deleted(s, deleted.s, Key(vlanID, md.client.value), md.server.value)
            && deleted.md == if vlanID == 0 && Key(vlanID, md.client.value) !in deleted.s.bridges then md.(client := None) else md
  {
    CloseKeepsConsistent(o, s, md, true);
    var key := Key(vlanID, md.client.value);
    DetachSucceeds(o, s, key, md.server.value);
    var (s1, ok1) := DetachServer(o, s, key, md.server.value);
    if s1.bridges[key].attached == {md.client.value} {
      TearDownSucceeds(o, s1, md, key);
      assert s1.bridges - {key} == s.bridges - {key};
    }
  }

  lemma TearDownSucceeds(o: Oracle, s: State, md: Md, key: Key)
    requires NeverFails(o) && Consistent(s) && key in s.bridges && s.bridges[key].attached == {key.clientIfIndex}
    requires key.vlanID != 0 ==> key.clientIfIndex in s.v.interfaces && s.v.interfaces[key.clientIfIndex].ifType == SUB
    ensures var down := TearDown(o, s, md, key);
            && down.ok && down.s.bridges == s.bridges - {key}
            && down.s.v.interfaces == if key.vlanID == 0 then s.v.interfaces else s.v.interfaces - {key.clientIfIndex}
  {
    var b, client := s.bridges[key], key.clientIfIndex;
    DomainOfKey(s, key);
    var (v1, ok1) := AfterSetBridge(o, s.v, client, b.id, false);
    assert MembersAttached(b, client, s.v.member);
    assert b.id !in v1.member.Values;
    assert v1.member - {client} == v1.member;
    assert s.bridges[key := b.(attached := b.attached - {client})] - {key} == s.bridges - {key};
  }

  // ---- Exactly when a close removes a bridge, and when it leaves an empty one ----

  /** What is attached once the connection's server interface has left. */
  function LeftOf(b: Bridge, md: Md): set<IfIndex> {
    if md.server.Some? then b.attached - {md.server.value} else b.attached
  }

  /** How many calls it takes to detach the server interface: one, or none if it is not attached. */
  function DetachCalls(b: Bridge, md: Md): nat {
    if md.server.Some? && md.server.value in b.attached then 1 else 0
  }

  predicate Detaches(o: Oracle, calls: nat, b: Bridge, md: Md) {
    DetachCalls(b, md) == 0 || o(calls).ok
  }

  /** The client interface is the only other one, and VPP accepts every call up to the deletion of the domain: the server
      interface's detachment if it is attached, the client interface's, and for a VLAN the deletion of the sub-interface. */
  predicate ReachesDeletion(o: Oracle, s: State, md: Md, key: Key)
    requires key in s.bridges
  {
    var b := s.bridges[key];
    var n := s.v.calls + DetachCalls(b, md);
    && LeftOf(b, md) == {key.clientIfIndex}
    && Detaches(o, s.v.calls, b, md) && o(n).ok
    && (key.vlanID != 0 ==>
          o(n + 1).ok && key.clientIfIndex in s.v.interfaces && s.v.interfaces[key.clientIfIndex].ifType == SUB)
  }

  /** VPP's answer to the deletion of the domain, when it gets there. */
  predicate AcceptsDeletion(o: Oracle, s: State, md: Md, key: Key)
    requires key in s.bridges
  {
    o(s.v.calls + DetachCalls(s.bridges[key], md) + if key.vlanID == 0 then 1 else 2).ok
  }

  lemma DetachOutcome(o: Oracle, s: State, md: Md, key: Key)
    requires key in s.bridges && s.bridges[key].id in s.v.domains && md.server.Some?
    ensures var b := s.bridges[key];
            var (s1, ok) := DetachServer(o, s, key, md.server.value);
            && ok == Detaches(o, s.v.calls, b, md)
            && s1.v.calls == s.v.calls + DetachCalls(b, md)
            && s1.v.interfaces == s.v.interfaces && s1.v.domains == s.v.domains
            && s1.bridges == s.bridges[key := b.(attached := if ok then LeftOf(b, md) else b.attached)]
            && (forall i :: i in s1.v.member ==> i in s.v.member && s1.v.member[i] == s.v.member[i])
            && (ok && DetachCalls(b, md) == 1 ==> md.server.value !in s1.v.member)
  {
    var b := s.bridges[key];
    assert md.server.value !in b.attached ==> LeftOf(b, md) == b.attached;
    assert s.bridges[key := b] == s.bridges;
  }

  /** The teardown by what VPP answers: it removes the key, or leaves an empty bridge, or changes no bridge. */
  lemma TearDownOutcome(o: Oracle, s: State, md: Md, key: Key)
    requires key in s.bridges && s.bridges[key].id in s.v.domains && s.bridges[key].attached == {key.clientIfIndex}
    requires forall i :: i in s.v.member && s.v.member[i] == s.bridges[key].id ==> i == key.clientIfIndex
    ensures var b, client, n := s.bridges[key], key.clientIfIndex, s.v.calls;
            var reaches := o(n).ok && (key.vlanID != 0 ==>
              o(n + 1).ok && client in s.v.interfaces && s.v.interfaces[client].ifType == SUB);
            TearDown(o, s, md, key).s.bridges ==
            if !reaches then s.bridges
            else if o(n + if key.vlanID == 0 then 1 else 2).ok then s.bridges - {key}
            else s.bridges[key := b.(attached := {})]
  {
    var b := s.bridges[key];
    assert b.attached - {key.clientIfIndex} == {};
    assert s.bridges[key := b.(attached := {})] - {key} == s.bridges - {key};
  }

  /** What closing makes of the bridges, by what holds before the call and what VPP answers. */
  lemma DelOutcome(o: Oracle, s: State, md: Md, vlanID: nat)
    requires Consistent(s) && md.client.Some? && Key(vlanID, md.client.value) in s.bridges
    ensures var key := Key(vlanID, md.client.value);
            var b := s.bridges[key];
            AfterDel(o, s, md, vlanID).s.bridges ==
            if ReachesDeletion(o, s, md, key) then
              if AcceptsDeletion(o, s, md, key) then s.bridges - {key} else s.bridges[key := b.(attached := {})]
            else if Detaches(o, s.v.calls, b, md) then s.bridges[key := b.(attached := LeftOf(b, md))]
            else s.bridges
  {
    var key := Key(vlanID, md.client.value);
    var b := s.bridges[key];
    DomainOfKey(s, key);
    assert MembersAttached(b, key.clientIfIndex, s.v.member);
    hide Consistent, DetachServer, TearDown;
    var s1 := if md.server.Some? then DetachServer(o, s, key, md.server.value).0 else s;
    if md.server.Some? { DetachOutcome(o, s, md, key); }
    assert s.bridges[key := b] == s.bridges;
    if Detaches(o, s.v.calls, b, md) && LeftOf(b, md) == {key.clientIfIndex} {
      forall i | i in s1.v.member && s1.v.member[i] == b.id
        ensures i == key.clientIfIndex
      {
        assert i in b.attached;
        assert i in LeftOf(b, md);
      }
      TearDownOutcome(o, s1, md, key);
      assert s1.bridges - {key} == s.bridges - {key};
      assert s1.bridges[key := b.(attached := {})] == s.bridges[key := b.(attached := {})];
    }
  }

  /** A close removes a key exactly if the client interface was the only other one attached and VPP accepts every call. */
  lemma RemovedExactlyWhen(o: Oracle, s: State, md: Md, vlanID: nat)
    requires Consistent(s) && md.client.Some? && Key(vlanID, md.client.value) in s.bridges
    ensures var key := Key(vlanID, md.client.value);
            key !in AfterDel(o, s, md, vlanID).s.bridges <==>
            ReachesDeletion(o, s, md, key) && AcceptsDeletion(o, s, md, key)
  {
    hide Consistent, AfterDel, ReachesDeletion, AcceptsDeletion, Detaches;
    DelOutcome(o, s, md, vlanID);
  }

  /** A close leaves an empty bridge behind exactly if VPP accepts every call but the deletion of the domain, or if the
      server interface was the only one attached (a request had failed to attach the client interface) and can be detached. */
  lemma EmptiedExactlyWhen(o: Oracle, s: State, md: Md, vlanID: nat)
    requires Consistent(s) && md.client.Some? && Key(vlanID, md.client.value) in s.bridges
    requires s.bridges[Key(vlanID, md.client.value)].attached != {}
    ensures var key := Key(vlanID, md.client.value);
            var b, s' := s.bridges[key], AfterDel(o, s, md, vlanID).s;
            key in s'.bridges && s'.bridges[key].attached == {} <==>
            || (ReachesDeletion(o, s, md, key) && !AcceptsDeletion(o, s, md, key))
            || (LeftOf(b, md) == {} && Detaches(o, s.v.calls, b, md))
  {
    hide Consistent, AfterDel, AcceptsDeletion, Detaches;
    DelOutcome(o, s, md, vlanID);
  }

  // ---- Runs ----

  datatype Action =
    | Request(md: Md, isEthernet: bool, nextOk: bool)
    | Close(md: Md, isEthernet: bool)

  function Step(o: Oracle, s: State, a: Action): State {
    match a
    case Request(md, isEthernet, nextOk) => AfterRequest(o, s, md, isEthernet, nextOk).s
    case Close(md, isEthernet) => AfterClose(o, s, md, isEthernet).s
  }

  function Run(o: Oracle, s: State, actions: seq<Action>): State
    decreases |actions|
  {
    if actions == [] then s else Run(o, Step(o, s, actions[0]), actions[1..])
  }

  ghost predicate ExclusiveRun(o: Oracle, s: State, actions: seq<Action>)
    decreases |actions|
  {
    actions != [] ==> Exclusive(s, actions[0].md) && ExclusiveRun(o, Step(o, s, actions[0]), actions[1..])
  }

  /** In every reachable state of every run, with any VPP calls failing, map and VPP agree. */
  lemma {:induction false} RunKeepsConsistent(o: Oracle, s: State, actions: seq<Action>)
    requires Consistent(s) && ExclusiveRun(o, s, actions)
    ensures Consistent(Run(o, s, actions))
    decreases |actions|
  {
    if actions != [] {
      match actions[0] {
        case Request(md, isEthernet, nextOk) => RequestKeepsConsistent(o, s, md, isEthernet, nextOk);
        case Close(md, isEthernet) => CloseKeepsConsistent(o, s, md, isEthernet);
      }
      RunKeepsConsistent(o, Step(o, s, actions[0]), actions[1..]);
    }
  }

  // ---- Empty bridges over runs ----

  /** A request that gets as far as joining the bridge of `key`. */
  predicate Joins(a: Action, key: Key) {
    && a.Request? && a.isEthernet && a.nextOk
    && a.md.client.Some? && a.md.server.Some? && a.md.vlan.Some? && key == Key(a.md.vlan.value, a.md.client.value)
  }

  predicate SameBridge(s: State, s': State, key: Key) {
    key in s.bridges && key in s'.bridges && s'.bridges[key] == s.bridges[key]
  }

  lemma DelElsewhere(o: Oracle, s: State, md: Md, vlanID: nat, key: Key)
    requires key in s.bridges
    requires md.client.Some? && key == Key(vlanID, md.client.value) ==> s.bridges[key].attached == {}
    ensures SameBridge(s, AfterDel(o, s, md, vlanID).s, key)
  {
    hide AfterSetBridge, AfterDelSubIf, AfterBridgeDel;
  }

  lemma AddElsewhere(o: Oracle, s: State, md: Md, vlanID: nat, key: Key)
    requires key in s.bridges
    requires !(md.client.Some? && md.server.Some? && key == Key(vlanID, md.client.value))
    ensures SameBridge(s, AfterAdd(o, s, md, vlanID).s, key)
  {
    hide AfterSetBridge, AfterBridgeAdd;
  }

  /** Only a joining request changes an empty bridge. */
  lemma StepKeepsEmpty(o: Oracle, s: State, a: Action, key: Key)
    requires key in s.bridges && s.bridges[key].attached == {} && !Joins(a, key)
    ensures SameBridge(s, Step(o, s, a), key)
  {
    hide AfterAdd, AfterDel;
    if a.md.vlan.Some? {
      var vlanID := a.md.vlan.value;
      DelElsewhere(o, s, a.md, vlanID, key);
      if a.Request? && a.isEthernet && a.nextOk {
        AddElsewhere(o, s, a.md, vlanID, key);
        var added := AfterAdd(o, s, a.md, vlanID);
        AddKeepsMd(o, s, a.md, vlanID);
        DelElsewhere(o, added.s, added.md, vlanID, key);
      }
    }
  }

  lemma AddKeepsMd(o: Oracle, s: State, md: Md, vlanID: nat)
    ensures AfterAdd(o, s, md, vlanID).md == md
  {
    hide JoinBridge;
  }

  /** A joining request attaches something if VPP accepts all calls. */
  lemma JoinFills(o: Oracle, s: State, a: Action, key: Key)
    requires NeverFails(o) && key in s.bridges && s.bridges[key].id in s.v.domains && Joins(a, key)
    ensures key in Step(o, s, a).bridges && Step(o, s, a).bridges[key].attached != {}
  {
    var server := a.md.server.value;
    var (s2, ok2) := AttachServer(o, s, key, server);
    assert ok2 && s2.v.domains == s.v.domains && server in s2.bridges[key].attached;
    var (s3, ok3) := AttachServer(o, s2, key, key.clientIfIndex);
    assert ok3 && key.clientIfIndex in s3.bridges[key].attached;
  }

  lemma {:induction false} RunPrefix(o: Oracle, s: State, actions: seq<Action>, n: nat)
    requires n < |actions|
    ensures Run(o, s, actions[..n + 1]) == Step(o, Run(o, s, actions[..n]), actions[n])
    decreases n
  {
    hide Step;
    if n > 0 {
      RunPrefix(o, Step(o, s, actions[0]), actions[1..], n - 1);
      assert actions[1..][..n] == actions[..n + 1][1..];
      assert actions[1..][..n - 1] == actions[..n][1..];
    } else {
      assert actions[..1][1..] == [] && actions[..0] == [];
    }
  }

  ghost predicate DomainsInStep(s: State) {
    OneDomainPerKey(s.bridges, s.v.domains)
  }

  lemma AttachKeepsDomains(o: Oracle, s: State, key: Key, i: IfIndex)
    requires DomainsInStep(s) && key in s.bridges
    ensures DomainsInStep(AttachServer(o, s, key, i).0) && key in AttachServer(o, s, key, i).0.bridges
  {
    ReattachKeepsDomains(s.bridges, s.v.domains, key, s.bridges[key].attached + {i});
    hide OneDomainPerKey;
  }

  lemma AddKeepsDomains(o: Oracle, s: State, md: Md, vlanID: nat)
    requires DomainsInStep(s)
    ensures DomainsInStep(AfterAdd(o, s, md, vlanID).s)
  {
    hide OneDomainPerKey, AttachServer;
    if md.client.Some? && md.server.Some? {
      var key := Key(vlanID, md.client.value);
      var (s1, ok1) := EnsureBridge(o, s, key);
      if ok1 && key !in s.bridges { NewKeyKeepsDomains(s.bridges, s.v.domains, key, s1.bridges[key].id); }
      if ok1 {
        AttachKeepsDomains(o, s1, key, md.server.value);
        var (s2, _) := AttachServer(o, s1, key, md.server.value);
        AttachKeepsDomains(o, s2, key, key.clientIfIndex);
      }
    }
  }

  lemma TearDownKeepsDomains(o: Oracle, s: State, md: Md, key: Key)
    requires DomainsInStep(s) && key in s.bridges
    ensures DomainsInStep(TearDown(o, s, md, key).s)
  {
    var b := s.bridges[key];
    var bridges := s.bridges[key := b.(attached := b.attached - {key.clientIfIndex})];
    ReattachKeepsDomains(s.bridges, s.v.domains, key, b.attached - {key.clientIfIndex});
    DroppedKeyKeepsDomains(bridges, s.v.domains, key);
    hide OneDomainPerKey;
    var (v1, _) := AfterSetBridge(o, s.v, key.clientIfIndex, b.id, false);
    var (v2, _, _) := AfterDelSubIf(o, v1, md, key.vlanID, key.clientIfIndex);
    assert v2.domains == s.v.domains;
  }

  lemma DelKeepsDomains(o: Oracle, s: State, md: Md, vlanID: nat)
    requires DomainsInStep(s)
    ensures DomainsInStep(AfterDel(o, s, md, vlanID).s)
  {
    hide OneDomainPerKey, TearDown;
    if md.client.Some? && Key(vlanID, md.client.value) in s.bridges {
      var key := Key(vlanID, md.client.value);
      var s1 := if md.server.Some? then DetachServer(o, s, key, md.server.value).0 else s;
      if md.server.Some? { ReattachKeepsDomains(s.bridges, s.v.domains, key, s.bridges[key].attached - {md.server.value}); }
      TearDownKeepsDomains(o, s1, md, key);
    }
  }

  lemma {:induction false} RunKeepsDomains(o: Oracle, s: State, actions: seq<Action>)
    requires DomainsInStep(s)
    ensures DomainsInStep(Run(o, s, actions))
    decreases |actions|
  {
    hide DomainsInStep, AfterAdd, AfterDel;
    if actions != [] {
      var a := actions[0];
      if a.md.vlan.Some? {
        AddKeepsDomains(o, s, a.md, a.md.vlan.value);
        DelKeepsDomains(o, s, a.md, a.md.vlan.value);
        var added := AfterAdd(o, s, a.md, a.md.vlan.value);
        AddKeepsMd(o, s, a.md, a.md.vlan.value);
        DelKeepsDomains(o, added.s, a.md, a.md.vlan.value);
      }
      RunKeepsDomains(o, Step(o, s, a), actions[1..]);
    }
  }

  lemma {:induction false} RunKeepsEmpty(o: Oracle, s: State, actions: seq<Action>, key: Key)
    requires key in s.bridges && s.bridges[key].attached == {}
    requires forall i :: 0 <= i < |actions| ==> !Joins(actions[i], key)
    ensures SameBridge(s, Run(o, s, actions), key)
    decreases |actions|
  {
    hide Step, Joins;
    if actions != [] {
      StepKeepsEmpty(o, s, actions[0], key);
      RunKeepsEmpty(o, Step(o, s, actions[0]), actions[1..], key);
    }
  }

  ghost predicate AlwaysEmpty(o: Oracle, s: State, actions: seq<Action>, key: Key) {
    forall n :: 0 <= n <= |actions| ==> SameBridge(s, Run(o, s, actions[..n]), key)
  }

  ghost predicate SomeJoins(actions: seq<Action>, key: Key) {
    exists i :: 0 <= i < |actions| && Joins(actions[i], key)
  }

  /** Up to the first request that joins the key nothing happens to an empty bridge, and that request fills it if VPP accepts
      all calls. */
  lemma {:induction false} FirstJoinFills(o: Oracle, s: State, actions: seq<Action>, key: Key, n: nat)
    requires NeverFails(o) && DomainsInStep(s) && key in s.bridges && s.bridges[key].attached == {}
    requires n < |actions| && Joins(actions[n], key) && forall i :: 0 <= i < n ==> !Joins(actions[i], key)
    ensures !AlwaysEmpty(o, s, actions, key)
  {
    hide Step, Joins, Run;
    var before := Run(o, s, actions[..n]);
    RunKeepsEmpty(o, s, actions[..n], key);
    RunKeepsDomains(o, s, actions[..n]);
    DomainOf(before, key);
    JoinFills(o, before, actions[n], key);
    RunPrefix(o, s, actions, n);
    assert !SameBridge(s, Run(o, s, actions[..n + 1]), key);
  }

  lemma DomainOf(s: State, key: Key)
    requires DomainsInStep(s) && key in s.bridges
    ensures s.bridges[key].id in s.v.domains
  {
  }

  /** An empty bridge stays, and with it its domain in VPP, throughout every run whatever VPP answers, exactly if no request
      of the run joins its key: no close ever deletes it. */
  lemma EmptyBridgeStaysIff(s: State, actions: seq<Action>, key: Key)
    requires DomainsInStep(s) && key in s.bridges && s.bridges[key].attached == {}
    ensures (forall o :: AlwaysEmpty(o, s, actions, key)) <==> !SomeJoins(actions, key)
    ensures forall o :: !SomeJoins(actions, key) ==> s.bridges[key].id in Run(o, s, actions).v.domains
  {
    hide Step, Joins, Run, DomainsInStep;
    if SomeJoins(actions, key) {
      var n := FirstJoin(actions, key);
      FirstJoinFills((k: nat) => Reply(true, 0), s, actions, key, n);
    } else {
      forall o
        ensures AlwaysEmpty(o, s, actions, key) && s.bridges[key].id in Run(o, s, actions).v.domains
      {
        forall n | 0 <= n <= |actions|
          ensures SameBridge(s, Run(o, s, actions[..n]), key)
        {
          RunKeepsEmpty(o, s, actions[..n], key);
        }
        assert actions[..|actions|] == actions;
        RunKeepsDomains(o, s, actions);
        DomainOf(Run(o, s, actions), key);
      }
    }
  }

  lemma {:induction false} FirstJoin(actions: seq<Action>, key: Key) returns (n: nat)
    requires SomeJoins(actions, key)
    ensures n < |actions| && Joins(actions[n], key) && forall i :: 0 <= i < n ==> !Joins(actions[i], key)
  {
    hide Joins;
    n := 0;
    while !Joins(actions[n], key)
      invariant n < |actions| && forall i :: 0 <= i < n ==> !Joins(actions[i], key)
      decreases |actions| - n
    {
      n := n + 1;
    }
  }

  // ---- The program ----

  /** The per-connection metadata, shared by the elements of a chain. */
  class Metadata {
    var md: Md

    constructor (md: Md)
      ensures this.md == md
    {
      this.md := md;
    }
  }

  class Server {
    const vpp: L2Conn
    var b: Bridges

    ghost function St(): State
      reads this, vpp
    {
      State(b, vpp.v)
    }

    constructor (vpp: L2Conn)
      ensures this.vpp == vpp && b == map[]
    {
      this.vpp := vpp;
      b := map[];
    }

    method Request(ctx: Metadata, isEthernet: bool, nextOk: bool) returns (ok: bool)
      modifies this, vpp, ctx
      ensures Outcome(St(), ctx.md, ok) == AfterRequest(vpp.oracle, old(St()), old(ctx.md), isEthernet, nextOk)
    {
      if !isEthernet || !nextOk {
        return nextOk;
      }
      match ctx.md.vlan {
        case None => return true;
        case Some(vlanID) =>
          ok := AddBridgeDomain(ctx, vlanID);
          if !ok {
            var _ := Close(ctx, isEthernet);
          }
      }
    }

    method Close(ctx: Metadata, isEthernet: bool) returns (ok: bool)
      modifies this, vpp, ctx
      ensures Outcome(St(), ctx.md, ok) == AfterClose(vpp.oracle, old(St()), old(ctx.md), isEthernet)
    {
      match ctx.md.vlan {
        case None =>
        case Some(vlanID) =>
          if isEthernet {
            var _ := DelBridgeDomain(ctx, vlanID);
          }
      }
      ok := true;
    }

    method AddBridgeDomain(ctx: Metadata, vlanID: nat) returns (ok: bool)
      modifies this, vpp
      ensures Outcome(St(), ctx.md, ok) == AfterAdd(vpp.oracle, old(St()), old(ctx.md), vlanID)
    {
      if ctx.md.client.None? || ctx.md.server.None? {
        return true;
      }
      var clientIfIndex, serverIfIndex := ctx.md.client.value, ctx.md.server.value;
      var key := Key(vlanID, clientIfIndex);
      if key !in b {
        var id;
        ok, id := vpp.BridgeDomainAdd();
        if !ok { return; }
        b := b[key := Bridge(id, {})];
      }
      if serverIfIndex !in b[key].attached {
        ok := vpp.SwInterfaceSetL2Bridge(serverIfIndex, b[key].id, true);
        if !ok { return; }
        b := b[key := b[key].(attached := b[key].attached + {serverIfIndex})];
      }
      if clientIfIndex !in b[key].attached {
        ok := vpp.SwInterfaceSetL2Bridge(clientIfIndex, b[key].id, true);
        if !ok { return; }
        b := b[key := b[key].(attached := b[key].attached + {clientIfIndex})];
      }
      ok := true;
    }

    method DelBridgeDomain(ctx: Metadata, vlanID: nat) returns (ok: bool)
      modifies this, vpp, ctx
      ensures Outcome(St(), ctx.md, ok) == AfterDel(vpp.oracle, old(St()), old(ctx.md), vlanID)
    {
      ok := true;
      if ctx.md.client.None? {
        return;
      }
      var clientIfIndex := ctx.md.client.value;
      var key := Key(vlanID, clientIfIndex);
      if key !in b {
        return;
      }
      if ctx.md.server.Some? && ctx.md.server.value in b[key].attached {
        var serverIfIndex := ctx.md.server.value;
        ok := vpp.SwInterfaceSetL2Bridge(serverIfIndex, b[key].id, false);
        if !ok { return; }
        b := b[key := b[key].(attached := b[key].attached - {serverIfIndex})];
      }
      if |b[key].attached| == 1 {
        // nothing but the client interface remains: bridge and sub-interface go
        SingletonIsClient(b[key].attached, clientIfIndex);
        if clientIfIndex in b[key].attached {
          ok := vpp.SwInterfaceSetL2Bridge(clientIfIndex, b[key].id, false);
          if !ok { return; }
          ok := DelVppSubIf(ctx, vlanID, clientIfIndex);
          if !ok { return; }
          b := b[key := b[key].(attached := b[key].attached - {clientIfIndex})];
          ok := vpp.BridgeDomainDel(b[key].id);
          if !ok { return; }
          b := b - {key};
        }
      }
    }

    method DelVppSubIf(ctx: Metadata, vlanID: nat, swIfIndex: IfIndex) returns (ok: bool)
      modifies vpp, ctx
      ensures (vpp.v, ctx.md, ok) == AfterDelSubIf(vpp.oracle, old(vpp.v), old(ctx.md), vlanID, swIfIndex)
    {
      if vlanID == 0 {
        ctx.md := ctx.md.(client := None);
        return true;
      }
      ok := vpp.DeleteSubif(swIfIndex);
    }
  }

  lemma SingletonIsClient(attached: set<IfIndex>, client: IfIndex)
    ensures |attached| == 1 && client in attached <==> attached == {client}
  {
    if |attached| == 1 && client in attached {
      assert |attached - {client}| == 0;
    }
  }
}
