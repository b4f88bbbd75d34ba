/** What a successful first request has provided, in the terms of the mechanisms: each interface, peer and socket is the one
    its side was promised. */
module MechanismProvides {
  import opened Wrappers
  import opened GoNet
  import opened IpTypes
  import opened Vpp
  import opened MechanismChain
  import opened MechanismCollision

  /** The interface a mechanism describes. The source is the client's end and the destination the server's; each side's
      interface has its own end first. */
  predicate Promised(conn: Connection, isClient: bool, device: Device) {
    match conn.mechanism
    case WireguardMech(_, _, srcIP, dstIP, srcPort, dstPort) =>
      device == if isClient then WgInterface(ToVppAddress(srcIP), srcPort) else WgInterface(ToVppAddress(dstIP), dstPort)
    case VxlanMech(srcIP, dstIP, srcPort, dstPort, vni) =>
      device == if isClient then Tunnel(ToVppAddress(srcIP), ToVppAddress(dstIP), srcPort, vni)
                else Tunnel(ToVppAddress(dstIP), ToVppAddress(srcIP), dstPort, vni)
    case KernelMech(interfaceName) => device == Tap(interfaceName, conn.payload == PayloadIP)
    case MemifMech(_) => device.MemifInterface?
    case OtherMech => false
  }

  /** A side has its interface, and if that is a memif its socket has the file name of the mechanism. */
  ghost predicate HasInterface(c: Config, s: State, side: bool) {
    && side in s.m.ifindex && s.m.ifindex[side] in s.v.ifs
    && Promised(c.conn(side), side, s.v.ifs[s.m.ifindex[side]])
    && (c.conn(side).mechanism.MemifMech? ==> HasSocket(s, side, c.conn(side).mechanism.socketFilename))
  }

  ghost predicate HasSocket(s: State, side: bool, filename: string) {
    && side in s.m.sockets && s.m.sockets[side].isAdd && s.m.sockets[side].filename == filename
    && side in s.m.ifindex && s.m.ifindex[side] in s.v.ifs && s.v.ifs[s.m.ifindex[side]] == MemifInterface(s.m.sockets[side].id)
    && s.m.sockets[side].id in s.v.sockets && s.v.sockets[s.m.sockets[side].id] == filename
  }

  /** The element that makes the interface of its side. */
  predicate MakesInterface(c: Config, e: Element) {
    match e.kind
    case Wireguard => c.conn(e.isClient).mechanism.WireguardMech? && c.conn(e.isClient).payload == PayloadIP
    case Vxlan => c.conn(e.isClient).mechanism.VxlanMech? && c.conn(e.isClient).payload == PayloadEthernet
    case KernelTap => c.conn(e.isClient).mechanism.KernelMech?
    case MemifElement => c.conn(e.isClient).mechanism.MemifMech?
    case _ => false
  }

  /** The wireguard interface of a side has the other side as its peer: a client the destination's key, address and port, a
      server the source's. */
  ghost predicate HasPeer(c: Config, s: State, side: bool) {
    match c.conn(side).mechanism
    case WireguardMech(srcKey, dstKey, srcIP, dstIP, srcPort, dstPort) =>
      var key := PeerKey(side, if side then dstKey else srcKey);
      && side in s.m.ifindex && key in s.m.peers && s.m.peers[key] in s.v.peers
      && s.v.peers[s.m.peers[key]] ==
         if side then WgPeer(s.m.ifindex[side], dstKey, ToVppAddress(dstIP), dstPort)
         else WgPeer(s.m.ifindex[side], srcKey, ToVppAddress(srcIP), srcPort)
    case _ => false
  }

  // ---- What is right stays right ----

  ghost predicate RightSide(c: Config, s: State, side: bool) {
    && (side in s.m.ifindex ==> HasInterface(c, s, side))
    && (forall pubKey :: PeerKey(side, pubKey) in s.m.peers ==> HasPeer(c, s, side))
    && (side in s.m.sockets ==> side in s.m.ifindex && c.conn(side).mechanism.MemifMech?)
  }

  /** Everything that has been made so far is right, and the two sides have different interfaces. */
  ghost predicate RightSides(c: Config, s: State) {
    && (forall side :: RightSide(c, s, side))
    && (forall side :: side in s.m.ifindex && !side in s.m.ifindex ==> s.m.ifindex[side] != s.m.ifindex[!side])
  }

  /** Nothing has gone from the metadata. */
  ghost predicate More(s: State, s': State) {
    s.m.ifindex.Keys <= s'.m.ifindex.Keys && s.m.peers.Keys <= s'.m.peers.Keys
  }

  /** What concerns one side has not changed. */
  ghost predicate SameSide(c: Config, s: State, s': State, side: bool) {
    && (side in s'.m.ifindex <==> side in s.m.ifindex) && (side in s'.m.sockets <==> side in s.m.sockets)
    && (side in s.m.ifindex ==>
          && s'.m.ifindex[side] == s.m.ifindex[side]
          && (s.m.ifindex[side] in s.v.ifs ==> s.m.ifindex[side] in s'.v.ifs && s'.v.ifs[s.m.ifindex[side]] == s.v.ifs[s.m.ifindex[side]]))
    && (side in s.m.sockets ==>
          && s'.m.sockets[side] == s.m.sockets[side]
          && (s.m.sockets[side].id in s.v.sockets ==>
                s.m.sockets[side].id in s'.v.sockets && s'.v.sockets[s.m.sockets[side].id] == s.v.sockets[s.m.sockets[side].id]))
    && (forall pubKey :: var key := PeerKey(side, pubKey);
          && (key in s'.m.peers <==> key in s.m.peers)
          && (key in s.m.peers ==> s'.m.peers[key] == s.m.peers[key])
          && (key in s.m.peers && s.m.peers[key] in s.v.peers ==>
                s.m.peers[key] in s'.v.peers && s'.v.peers[s.m.peers[key]] == s.v.peers[s.m.peers[key]]))
  }

  lemma SameIsRight(c: Config, s: State, s': State, side: bool)
    requires RightSide(c, s, side) && SameSide(c, s, s', side)
    ensures RightSide(c, s', side)
  {
    hide Promised;
  }

  lemma UnchangedIsRight(c: Config, s: State, s': State)
    requires RightSides(c, s) && s'.v == s.v && s'.m.ifindex == s.m.ifindex && s'.m.peers == s.m.peers && s'.m.sockets == s.m.sockets
    ensures RightSides(c, s') && More(s, s')
  {
    forall side
      ensures RightSide(c, s', side)
    {
      assert RightSide(c, s, side);
      SameIsRight(c, s, s', side);
    }
    hide RightSide;
  }

  /** A new interface is of the one side and leaves the other alone. */
  lemma AddedInterface(c: Config, s: State, side: bool, device: Device)
    requires side !in s.m.ifindex && AddInterface(c, s, side, device).1 && (!side in s.m.ifindex ==> s.m.ifindex[!side] in s.v.ifs)
    ensures var s' := AddInterface(c, s, side, device).0;
            && SameSide(c, s, s', !side) && More(s, s')
            && side in s'.m.ifindex && s'.m.ifindex[side] in s'.v.ifs && s'.v.ifs[s'.m.ifindex[side]] == device
            && (!side in s'.m.ifindex ==> s'.m.ifindex[side] != s'.m.ifindex[!side])
            && s'.m.ifindex.Keys == s.m.ifindex.Keys + {side}
            && s'.m.sockets == s.m.sockets && s'.v.sockets == s.v.sockets && s'.m.peers == s.m.peers && s'.v.peers == s.v.peers
            && s'.m.wgKeys == s.m.wgKeys
  {
    hide FirstFree;
  }

  lemma OthersLive(c: Config, s: State, side: bool)
    requires RightSides(c, s)
    ensures !side in s.m.ifindex ==> s.m.ifindex[!side] in s.v.ifs
  {
    assert RightSide(c, s, !side);
    hide Promised;
  }

  lemma AddedIsRight(c: Config, s: State, side: bool, device: Device)
    requires RightSides(c, s) && side !in s.m.ifindex && AddInterface(c, s, side, device).1
    requires Promised(c.conn(side), side, device) && !c.conn(side).mechanism.MemifMech?
    ensures RightSides(c, AddInterface(c, s, side, device).0) && More(s, AddInterface(c, s, side, device).0)
    ensures HasInterface(c, AddInterface(c, s, side, device).0, side)
  {
    var s' := AddInterface(c, s, side, device).0;
    OthersLive(c, s, side);
    AddedInterface(c, s, side, device);
    assert RightSide(c, s, side) && RightSide(c, s, !side);
    hide AddInterface, Promised, More;
    SameIsRight(c, s, s', !side);
    assert HasInterface(c, s', side);
    assert RightSide(c, s', side) by { hide SameSide; }
    hide RightSide, HasInterface, SameSide;
    BothRight(c, s', side);
  }

  lemma BothRight(c: Config, s: State, side: bool)
    requires RightSide(c, s, side) && RightSide(c, s, !side)
    requires side in s.m.ifindex && !side in s.m.ifindex ==> s.m.ifindex[side] != s.m.ifindex[!side]
    ensures RightSides(c, s)
  {
    hide RightSide;
    forall x
      ensures RightSide(c, s, x)
      ensures x in s.m.ifindex && !x in s.m.ifindex ==> s.m.ifindex[x] != s.m.ifindex[!x]
    {
      assert x == side || x == !side;
    }
  }

  // ---- Elements ----

  ghost predicate Right(c: Config, s: State) {
    RightSides(c, s) && KeysFit(c, s.m.wgKeys, s.m.ifindex)
  }

  /** What a successful creation leaves. */
  ghost predicate Better(c: Config, s: State, s': State) {
    Right(c, s') && More(s, s')
  }

  lemma WireguardRight(c: Config, s: State, side: bool)
    requires Right(c, s) && AfterCreateWireguard(c, s, side).1
    ensures Better(c, s, AfterCreateWireguard(c, s, side).0)
    ensures c.conn(side).mechanism.WireguardMech? ==> HasInterface(c, AfterCreateWireguard(c, s, side).0, side)
  {
    hide AddInterface, RightSide, HasInterface;
    var s' := AfterCreateWireguard(c, s, side).0;
    if c.conn(side).mechanism.WireguardMech? && side !in s.m.wgKeys {
      var device := WgInterfaceOf(c.conn(side).mechanism, side);
      var s1 := AddInterface(c, s, side, device).0;
      AddedIsRight(c, s, side, device);
      OthersLive(c, s, side);
      AddedInterface(c, s, side, device);
      AddedIff(c, s, side, device);
      UnchangedIsRight(c, s1, s');
      SameInterface(c, s1, s', side);
    } else {
      UnchangedIsRight(c, s, s');
      if c.conn(side).mechanism.WireguardMech? { RightHas(c, s, side); }
    }
  }

  lemma SameInterface(c: Config, s: State, s': State, side: bool)
    requires HasInterface(c, s, side) && s'.v.ifs == s.v.ifs && s'.v.sockets == s.v.sockets
    requires s'.m.ifindex == s.m.ifindex && s'.m.sockets == s.m.sockets
    ensures HasInterface(c, s', side)
  {
    hide Promised;
  }

  lemma RightHas(c: Config, s: State, side: bool)
    requires RightSides(c, s) && side in s.m.ifindex
    ensures HasInterface(c, s, side)
  {
    assert RightSide(c, s, side);
    hide HasInterface;
  }

  lemma PeerRight(c: Config, s: State, side: bool)
    requires Right(c, s) && AfterCreatePeer(c, s, side).1
    ensures Better(c, s, AfterCreatePeer(c, s, side).0)
    ensures c.conn(side).mechanism.WireguardMech? && side in s.m.ifindex ==> HasPeer(c, AfterCreatePeer(c, s, side).0, side)
  {
    var s' := AfterCreatePeer(c, s, side).0;
    assert RightSide(c, s, side) && RightSide(c, s, !side);
    PeersOnly(c, s, side);
    if c.conn(side).mechanism.WireguardMech? && side in s.m.ifindex {
      PeerMade(c, s, side);
      hide AfterCreatePeer, Promised, HasPeer;
      SameIsRight(c, s, s', !side);
      SameInterface(c, s, s', side);
      assert RightSide(c, s', side) by { hide SameSide; }
      BothRight(c, s', side);
    } else {
      UnchangedIsRight(c, s, s');
    }
  }

  lemma PeerMade(c: Config, s: State, side: bool)
    requires AfterCreatePeer(c, s, side).1 && c.conn(side).mechanism.WireguardMech? && side in s.m.ifindex
    requires RightSide(c, s, side) && RightSide(c, s, !side)
    ensures var s' := AfterCreatePeer(c, s, side).0; HasPeer(c, s', side) && SameSide(c, s, s', !side) && More(s, s')
  {
    hide FirstFree;
  }

  lemma VxlanRight(c: Config, s: State, side: bool)
    requires Right(c, s) && AfterAddVxlan(c, s, side).1
    ensures Better(c, s, AfterAddVxlan(c, s, side).0)
    ensures c.conn(side).mechanism.VxlanMech? ==> HasInterface(c, AfterAddVxlan(c, s, side).0, side)
  {
    var mechanism := c.conn(side).mechanism;
    if mechanism.VxlanMech? && side !in s.m.ifindex {
      TunnelPromised(c.conn(side), side);
      hide AddInterface, RightSide, HasInterface, TunnelOf, Promised;
      UnchangedIsRight(c, s, Called(s));
      AddedIsRight(c, Called(s), side, TunnelOf(mechanism, side));
      OthersLive(c, Called(s), side);
      AddedInterface(c, Called(s), side, TunnelOf(mechanism, side));
      AddedIff(c, Called(s), side, TunnelOf(mechanism, side));
    } else {
      UnchangedIsRight(c, s, s);
      if mechanism.VxlanMech? { RightHas(c, s, side); }
    }
  }

  lemma TunnelPromised(conn: Connection, side: bool)
    requires conn.mechanism.VxlanMech?
    ensures Promised(conn, side, TunnelOf(conn.mechanism, side))
  {
  }

  lemma TapRight(c: Config, s: State, side: bool)
    requires Right(c, s) && AfterCreateTap(c, s, side).1
    ensures Better(c, s, AfterCreateTap(c, s, side).0)
    ensures c.conn(side).mechanism.KernelMech? ==> HasInterface(c, AfterCreateTap(c, s, side).0, side)
  {
    hide NewTap, AfterDelTap, RightSide, HasInterface, RightSides;
    var s' := AfterCreateTap(c, s, side).0;
    if !c.conn(side).mechanism.KernelMech? {
      UnchangedIsRight(c, s, s);
    } else if side in s.m.ifindex && Try(c, Called(s)).1 {
      UnchangedIsRight(c, s, s');
      RightHas(c, s, side);
      SameInterface(c, s, s', side);
    } else {
      var s1 := if side in s.m.ifindex then Called(Called(s)) else Called(s);
      UnchangedIsRight(c, s, s1);
      DeletedIsRight(c, s1, side);
      NewTapRight(c, AfterDelTap(c, s1, side), side);
    }
  }

  /** Deleting a tap leaves the other side alone. */
  lemma DeletedIsRight(c: Config, s: State, side: bool)
    requires RightSides(c, s) && c.conn(side).mechanism.KernelMech? && KeysFit(c, s.m.wgKeys, s.m.ifindex)
    ensures var s' := AfterDelTap(c, s, side);
            && RightSides(c, s') && KeysFit(c, s'.m.wgKeys, s'.m.ifindex) && side !in s'.m.ifindex
            && s'.m.ifindex.Keys == s.m.ifindex.Keys - {side} && s'.m.peers == s.m.peers
  {
    var s' := AfterDelTap(c, s, side);
    assert RightSide(c, s, side) && RightSide(c, s, !side);
    DeletedSame(c, s, side);
    hide AfterDelTap, Promised;
    SameIsRight(c, s, s', !side);
    assert RightSide(c, s', side) by { hide SameSide; }
    hide RightSide;
    BothRight(c, s', side);
  }

  lemma DeletedSame(c: Config, s: State, side: bool)
    requires c.conn(side).mechanism.KernelMech?
    requires side in s.m.ifindex && !side in s.m.ifindex ==> s.m.ifindex[side] != s.m.ifindex[!side]
    ensures var s' := AfterDelTap(c, s, side);
            && SameSide(c, s, s', !side) && side !in s'.m.ifindex && s'.m.ifindex.Keys == s.m.ifindex.Keys - {side}
            && s'.m.sockets == s.m.sockets && s'.m.peers == s.m.peers && s'.m.wgKeys == s.m.wgKeys
  {
  }

  lemma NewTapRight(c: Config, s: State, side: bool)
    requires Right(c, s) && c.conn(side).mechanism.KernelMech? && side !in s.m.ifindex && NewTap(c, s, side).1
    ensures Better(c, s, NewTap(c, s, side).0) && HasInterface(c, NewTap(c, s, side).0, side)
    ensures NewTap(c, s, side).0.m.ifindex.Keys == s.m.ifindex.Keys + {side}
  {
    var device := TapOf(c.conn(side));
    assert Promised(c.conn(side), side, device);
    hide AddInterface, RightSide, HasInterface, TryAll, Promised;
    UnchangedIsRight(c, s, Called(s));
    AddedIff(c, Called(s), side, device);
    var (s1, ok1) := AddInterface(c, Called(s), side, device);
    AddedIsRight(c, Called(s), side, device);
    OthersLive(c, Called(s), side);
    AddedInterface(c, Called(s), side, device);
    var s2 := TryAll(c, s1, 4).0;
    TryAllSame(c, s1, 4);
    UnchangedIsRight(c, s1, s2);
    SameInterface(c, s1, s2, side);
  }

  lemma {:induction false} TryAllSame(c: Config, s: State, n: nat)
    ensures var s' := TryAll(c, s, n).0; s'.v == s.v && s'.m == s.m
    decreases n
  {
    if n > 0 { TryAllSame(c, Called(s), n - 1); }
  }

  lemma MemifRight(c: Config, s: State, side: bool)
    requires Right(c, s) && AfterCreateMemif(c, s, side).1
    ensures Better(c, s, AfterCreateMemif(c, s, side).0)
    ensures c.conn(side).mechanism.MemifMech? ==> HasInterface(c, AfterCreateMemif(c, s, side).0, side)
  {
    var mechanism, s' := c.conn(side).mechanism, AfterCreateMemif(c, s, side).0;
    assert RightSide(c, s, side);
    hide NewMemif, Promised;
    if !mechanism.MemifMech? {
      UnchangedIsRight(c, s, s);
    } else if side in s.m.ifindex {
      assert s' == Called(s);
      UnchangedIsRight(c, s, s');
      SameInterface(c, s, s', side);
    } else {
      assert AfterDelMemif(c, s, side) == s;
      NewMemifRight(c, s, side);
    }
  }

  lemma NewMemifRight(c: Config, s: State, side: bool)
    requires Right(c, s) && c.conn(side).mechanism.MemifMech? && side !in s.m.ifindex && NewMemif(c, s, side).1
    ensures Better(c, s, NewMemif(c, s, side).0) && HasInterface(c, NewMemif(c, s, side).0, side)
  {
    var filename := c.conn(side).mechanism.socketFilename;
    var (s1, ok1) := AddSocket(c, s, side, filename);
    var device := MemifInterface(s1.m.sockets[side].id);
    var s' := NewMemif(c, s, side).0;
    assert RightSide(c, s, side) && RightSide(c, s, !side);
    SocketSame(c, s, side, filename);
    AddedInterface(c, s1, side, device);
    hide AddSocket, AddInterface, Promised;
    SameTwice(c, s, s1, s', !side);
    SameIsRight(c, s, s', !side);
    hide SameSide;
    assert HasInterface(c, s', side) by { MemifPromised(c.conn(side), side, s1.m.sockets[side].id); }
    assert RightSide(c, s', side);
    hide RightSide, HasInterface;
    BothRight(c, s', side);
  }

  lemma MemifPromised(conn: Connection, side: bool, id: nat)
    requires conn.mechanism.MemifMech?
    ensures Promised(conn, side, MemifInterface(id))
  {
  }

  lemma SocketSame(c: Config, s: State, side: bool, filename: string)
    requires AddSocket(c, s, side, filename).1 && RightSide(c, s, !side)
    ensures var s1 := AddSocket(c, s, side, filename).0;
            && SameSide(c, s, s1, !side) && s1.v.ifs == s.v.ifs && s1.m.ifindex == s.m.ifindex && s1.m.peers == s.m.peers
            && s1.v.peers == s.v.peers && s1.m.wgKeys == s.m.wgKeys
            && side in s1.m.sockets && s1.m.sockets[side].isAdd && s1.m.sockets[side].filename == filename
            && s1.m.sockets[side].id in s1.v.sockets && s1.v.sockets[s1.m.sockets[side].id] == filename
  {
    hide FirstFree, Promised;
  }

  lemma SameTwice(c: Config, s: State, s1: State, s2: State, side: bool)
    requires SameSide(c, s, s1, side) && SameSide(c, s1, s2, side)
    ensures SameSide(c, s, s2, side)
  {
  }

  /** Whatever the record said before, after a successful creation it has the file name of the mechanism. */
  lemma MemifHasFile(c: Config, s: State, side: bool)
    requires c.conn(side).mechanism.MemifMech? && AfterCreateMemif(c, s, side).1
    ensures var s' := AfterCreateMemif(c, s, side).0;
            side in s'.m.sockets && s'.m.sockets[side].filename == c.conn(side).mechanism.socketFilename
  {
    hide AfterDelMemif, FirstFree;
  }

  /** VPP, and what else is asked, agree to a number of calls. */
  ghost predicate Agrees(c: Config, from: nat, n: nat) {
    forall i :: from <= i < from + n ==> c.o(i).ok
  }

  /** Exactly when a creation that has something to make succeeds: with valid addresses or a valid key, and if every one of
      its calls does. */
  lemma CreateSucceedsIff(c: Config, s: State, e: Element)
    ensures var side, conn, ok := e.isClient, c.conn(e.isClient), AfterCreate(c, s, e).1;
            match e.kind
            case Wireguard => MakesInterface(c, e) && side !in s.m.wgKeys ==> (ok <==> Agrees(c, s.calls, 1))
            case Peer =>
              conn.mechanism.WireguardMech? && side in s.m.ifindex ==>
                var key := if side then conn.mechanism.dstPublicKey else conn.mechanism.srcPublicKey;
                if PeerKey(side, key) in s.m.peers then ok else ok <==> c.isKey(key) && Agrees(c, s.calls, 1)
            case Vxlan =>
              MakesInterface(c, e) && side !in s.m.ifindex ==>
                (ok <==> conn.mechanism.srcIP != [] && conn.mechanism.dstIP != [] && Agrees(c, s.calls, 2) &&
                         forall device :: device in s.v.ifs.Values ==> !Promised(conn, side, device))
            case KernelTap => MakesInterface(c, e) && side !in s.m.ifindex ==> (ok <==> Agrees(c, s.calls, 7))
            case MemifElement => MakesInterface(c, e) && side !in s.m.ifindex ==> (ok <==> Agrees(c, s.calls, 3))
            case Other => ok <==> Agrees(c, s.calls, 1)
  {
    hide FirstFree;
    match e.kind
    case KernelTap => if MakesInterface(c, e) && e.isClient !in s.m.ifindex { TapSucceedsIff(c, s, e.isClient); }
    case Vxlan => if MakesInterface(c, e) && e.isClient !in s.m.ifindex { VxlanSucceedsIff(c, s, e.isClient); }
    case MemifElement => if MakesInterface(c, e) && e.isClient !in s.m.ifindex { MemifSucceedsIff(c, s, e.isClient); }
    case _ =>
  }

  lemma TapSucceedsIff(c: Config, s: State, side: bool)
    requires c.conn(side).mechanism.KernelMech? && side !in s.m.ifindex
    ensures AfterCreateTap(c, s, side).1 <==> Agrees(c, s.calls, 7)
  {
    var s1 := AddInterface(c, Called(Called(s)), side, TapOf(c.conn(side))).0;
    AddedIff(c, Called(Called(s)), side, TapOf(c.conn(side)));
    AddAlike(c, c.o, Called(Called(s)), side, TapOf(c.conn(side)));
    TryAllIff(c, s1, 4);
    hide AddInterface, TryAll;
    assert Agrees(c, s.calls, 7) <==> Agrees(c, s.calls, 3) && Agrees(c, s.calls + 3, 4);
    assert Agrees(c, s.calls, 3) <==> c.o(s.calls).ok && c.o(s.calls + 1).ok && c.o(s.calls + 2).ok;
    AddSucceedsIff(c, Called(Called(s)), side, TapOf(c.conn(side)));
  }

  lemma AddSucceedsIff(c: Config, s: State, side: bool, device: Device)
    ensures AddInterface(c, s, side, device).1 <==> c.o(s.calls).ok
  {
    hide FirstFree;
  }

  lemma {:induction false} TryAllIff(c: Config, s: State, n: nat)
    ensures TryAll(c, s, n).1 <==> Agrees(c, s.calls, n)
    decreases n
  {
    if n > 0 {
      TryAllIff(c, Called(s), n - 1);
      assert Agrees(c, s.calls, n) <==> c.o(s.calls).ok && Agrees(c, s.calls + 1, n - 1);
    }
  }

  lemma VxlanSucceedsIff(c: Config, s: State, side: bool)
    requires c.conn(side).mechanism.VxlanMech? && side !in s.m.ifindex
    ensures var m := c.conn(side).mechanism;
            AfterAddVxlan(c, s, side).1 <==>
            && m.srcIP != [] && m.dstIP != [] && Agrees(c, s.calls, 2)
            && forall device :: device in s.v.ifs.Values ==> !Promised(c.conn(side), side, device)
  {
    TunnelPromised(c.conn(side), side);
    assert forall device :: Promised(c.conn(side), side, device) ==> device == TunnelOf(c.conn(side).mechanism, side);
    hide FirstFree, TunnelOf, Promised;
    assert Agrees(c, s.calls, 2) <==> c.o(s.calls).ok && c.o(s.calls + 1).ok;
  }

  lemma MemifSucceedsIff(c: Config, s: State, side: bool)
    requires c.conn(side).mechanism.MemifMech? && side !in s.m.ifindex
    ensures AfterCreateMemif(c, s, side).1 <==> Agrees(c, s.calls, 3)
  {
    var s1 := AfterDelMemif(c, s, side);
    DelMemifAlike(c, c.o, s, side);
    hide FirstFree, AfterDelMemif;
    assert Agrees(c, s.calls, 3) <==> c.o(s.calls).ok && c.o(s.calls + 1).ok && c.o(s.calls + 2).ok;
  }

  // ---- Chains ----

  lemma CreateRight(c: Config, s: State, e: Element)
    requires Right(c, s) && AfterCreate(c, s, e).1
    ensures Better(c, s, AfterCreate(c, s, e).0)
    ensures MakesInterface(c, e) ==> HasInterface(c, AfterCreate(c, s, e).0, e.isClient)
    ensures var s' := AfterCreate(c, s, e).0;
            e.kind == Peer && c.conn(e.isClient).mechanism.WireguardMech? && e.isClient in s.m.ifindex ==> HasPeer(c, s', e.isClient)
  {
    hide AfterCreateWireguard, AfterCreatePeer, AfterAddVxlan, AfterCreateTap, AfterCreateMemif, RightSides, HasInterface, HasPeer;
    UnchangedIsRight(c, s, s);
    UnchangedIsRight(c, s, Called(s));
    match e.kind
    case Wireguard => if c.conn(e.isClient).payload == PayloadIP { WireguardRight(c, s, e.isClient); }
    case Peer => PeerRight(c, s, e.isClient);
    case Vxlan => if c.conn(e.isClient).payload == PayloadEthernet { VxlanRight(c, s, e.isClient); }
    case KernelTap => TapRight(c, s, e.isClient);
    case MemifElement => MemifRight(c, s, e.isClient);
    case Other =>
  }

  /** A peer element and, further down, the wireguard element of its side. */
  predicate InFront(c: Config, chain: seq<Element>, i: nat, j: nat)
    requires i < j < |chain|
  {
    chain[i].kind == Peer && chain[j] == Element(Wireguard, chain[i].isClient) && MakesInterface(c, chain[j])
  }

  /** Every element of the chain has provided its interface, and every peer element in front of its wireguard element the
      peer. */
  ghost predicate AllProvided(c: Config, s: State, chain: seq<Element>) {
    && (forall i :: 0 <= i < |chain| && MakesInterface(c, chain[i]) ==> HasInterface(c, s, chain[i].isClient))
    && (forall i, j :: 0 <= i < j < |chain| && InFront(c, chain, i, j) ==> HasPeer(c, s, chain[i].isClient))
  }

  lemma StillProvided(c: Config, s: State, s': State, side: bool)
    requires Right(c, s') && More(s, s')
    ensures HasInterface(c, s, side) ==> HasInterface(c, s', side)
    ensures HasPeer(c, s, side) ==> HasPeer(c, s', side)
  {
    assert RightSide(c, s', side);
    hide Promised;
  }

  lemma OneMoreProvided(c: Config, s: State, s': State, chain: seq<Element>)
    requires chain != [] && AllProvided(c, s, chain[1..]) && Right(c, s') && More(s, s')
    requires MakesInterface(c, chain[0]) ==> HasInterface(c, s', chain[0].isClient)
    requires var e := chain[0];
             e.kind == Peer && c.conn(e.isClient).mechanism.WireguardMech? && e.isClient in s.m.ifindex ==> HasPeer(c, s', e.isClient)
    ensures AllProvided(c, s', chain)
  {
    forall i | 0 <= i < |chain| && MakesInterface(c, chain[i])
      ensures HasInterface(c, s', chain[i].isClient)
    {
      if i > 0 {
        assert chain[1..][i - 1] == chain[i];
        StillProvided(c, s, s', chain[i].isClient);
      }
    }
    forall i, j | 0 <= i < j < |chain| && InFront(c, chain, i, j)
      ensures HasPeer(c, s', chain[i].isClient)
    {
      assert chain[1..][j - 1] == chain[j];
      if i > 0 {
        assert InFront(c, chain[1..], i - 1, j - 1);
        StillProvided(c, s, s', chain[i].isClient);
      }
    }
  }

  lemma {:induction false} RequestProvides(c: Config, s: State, chain: seq<Element>)
    requires Right(c, s) && AfterRequest(c, s, chain).1
    ensures Better(c, s, AfterRequest(c, s, chain).0) && AllProvided(c, AfterRequest(c, s, chain).0, chain)
    decreases |chain|
  {
    hide AfterCreate, AfterClose, RightSides, HasInterface, HasPeer, MakesInterface, AllProvided;
    var s' := AfterRequest(c, s, chain).0;
    if chain == [] {
      UnchangedIsRight(c, s, s');
      NothingToProvide(c, s');
    } else {
      RequestProvides(c, s, chain[1..]);
      var s1 := AfterRequest(c, s, chain[1..]).0;
      CreateRight(c, s1, chain[0]);
      OneMoreProvided(c, s1, s', chain);
    }
  }

  lemma NothingToProvide(c: Config, s: State)
    ensures AllProvided(c, s, [])
  {
  }

  /** A first request that succeeds, through any chain and whichever numbers VPP gives, has provided what the mechanisms of
      both sides say. */
  lemma FirstRequestProvides(c: Config, s: State, chain: seq<Element>)
    requires s.m == NO_METADATA && AfterRequest(c, s, chain).1
    ensures AllProvided(c, AfterRequest(c, s, chain).0, chain)
  {
    assert Right(c, s);
    hide AfterRequest, AllProvided, Right;
    RequestProvides(c, s, chain);
  }

  /** And if VPP answers every call, the first request of a connection that has what its mechanisms need does succeed. */
  lemma AnsweredRequestProvides(c: Config, s: State, chain: seq<Element>, h: nat)
    requires s.m == NO_METADATA && s.v.sockets == map[] && !c.keepsUsed && NeverFails(c.d)
    requires h != 0 && Equipped(c) && Free(c, s) && Answers(c.o, s.calls, h)
    ensures AfterRequest(c, s, chain).1 && AllProvided(c, AfterRequest(c, s, chain).0, chain)
  {
    assert MemifsUp(c, s) == {};
    hide AfterRequest, AllProvided, Free, Equipped, Built, MemifsUp;
    Builds(c, s, chain, h);
    FirstRequestProvides(c, s, chain);
  }

  // ---- Refreshes ----

  /** A peer element has something to do only if its side has an interface and no peer. */
  ghost predicate PeersDone(c: Config, s: State, chain: seq<Element>) {
    forall i :: 0 <= i < |chain| && chain[i].kind == Peer && c.conn(chain[i].isClient).mechanism.WireguardMech? ==>
      chain[i].isClient in s.m.ifindex ==> HasPeer(c, s, chain[i].isClient)
  }

  /** With everything provided, an element only looks. */
  lemma NothingToDo(c: Config, s: State, e: Element, h: nat)
    requires Right(c, s) && Answers(c.o, s.calls, h) && (MakesInterface(c, e) ==> HasInterface(c, s, e.isClient))
    requires e.kind == Peer && c.conn(e.isClient).mechanism.WireguardMech? && e.isClient in s.m.ifindex ==> HasPeer(c, s, e.isClient)
    ensures var (s', ok) := AfterCreate(c, s, e);
            ok && s'.v == s.v && s'.m == s.m && s'.calls >= s.calls
  {
    assert c.o(s.calls) == c.o(s.calls + 1) == Reply(true, h);
    hide Promised, NewTap, NewMemif, AddInterface, FirstFree, RightSides, TunnelOf;
  }

  /** A request of a connection that has everything, if nothing fails, changes nothing in VPP and in the metadata. */
  lemma {:induction false} RefreshChangesNothing(c: Config, s: State, chain: seq<Element>, h: nat)
    requires Right(c, s) && Answers(c.o, s.calls, h) && AllProvided(c, s, chain) && PeersDone(c, s, chain)
    ensures var (s', ok) := AfterRequest(c, s, chain);
            ok && s'.v == s.v && s'.m == s.m && s'.calls >= s.calls
    decreases |chain|
  {
    hide AfterCreate, AfterClose, RightSides, HasInterface, HasPeer, MakesInterface;
    assert c.o(s.calls) == Reply(true, h);
    if chain != [] {
      RestProvided(c, s, chain);
      RefreshChangesNothing(c, s, chain[1..], h);
      var s1 := AfterRequest(c, s, chain[1..]).0;
      SameProvided(c, s, s1, chain[0].isClient);
      NothingToDo(c, s1, chain[0], h);
    }
  }

  lemma RestProvided(c: Config, s: State, chain: seq<Element>)
    requires chain != [] && AllProvided(c, s, chain) && PeersDone(c, s, chain)
    ensures AllProvided(c, s, chain[1..]) && PeersDone(c, s, chain[1..])
  {
    hide HasInterface, HasPeer, MakesInterface;
    forall i, j | 0 <= i < j < |chain[1..]| && InFront(c, chain[1..], i, j)
      ensures HasPeer(c, s, chain[1..][i].isClient)
    {
      assert InFront(c, chain, i + 1, j + 1);
    }
    forall i | 0 <= i < |chain[1..]| && MakesInterface(c, chain[1..][i])
      ensures HasInterface(c, s, chain[1..][i].isClient)
    {
      assert chain[i + 1] == chain[1..][i];
    }
    assert forall i :: 0 <= i < |chain[1..]| ==> chain[1..][i] == chain[i + 1];
  }

  lemma SameProvided(c: Config, s: State, s': State, side: bool)
    requires s'.v == s.v && s'.m == s.m && Right(c, s)
    ensures Right(c, s')
    ensures HasInterface(c, s, side) ==> HasInterface(c, s', side)
    ensures HasPeer(c, s, side) ==> HasPeer(c, s', side)
  {
    UnchangedIsRight(c, s, s');
    hide RightSides, Promised;
  }

  /** So after a first request that succeeded through a chain with each peer element in front of its wireguard element,
      refreshes without failures change nothing. */
  lemma RefreshAfterRequest(c: Config, s: State, chain: seq<Element>, h: nat)
    requires s.m == NO_METADATA && AfterRequest(c, s, chain).1 && Answers(c.o, AfterRequest(c, s, chain).0.calls, h)
    requires forall i :: 0 <= i < |chain| && chain[i].kind == Peer ==> exists j :: i < j < |chain| && InFront(c, chain, i, j)
    ensures var s1 := AfterRequest(c, s, chain).0;
            var (s2, ok) := AfterRequest(c, s1, chain);
            ok && s2.v == s1.v && s2.m == s1.m
  {
    assert Right(c, s);
    var s1 := AfterRequest(c, s, chain).0;
    hide AfterRequest, Right, Answers, HasInterface, HasPeer, MakesInterface;
    RequestProvides(c, s, chain);
    RefreshChangesNothing(c, s1, chain, h);
  }
}
