/** The chain elements that make interfaces, peers and sockets for a connection, and undo each other's work when one of
    them fails (the wireguard, wireguard/peer, vxlan, kernel/kerneltap and memif folders of
    pkg/networkservice/mechanisms). */
module MechanismChain {
  import opened Wrappers
  import opened GoNet
  import opened IpTypes
  import opened Vpp

  datatype Payload = PayloadIP | PayloadEthernet

  /** An empty address stands for a missing one. */
  datatype Mechanism =
    | WireguardMech(srcPublicKey: string, dstPublicKey: string, srcIP: IP, dstIP: IP, srcPort: nat, dstPort: nat)
    | VxlanMech(srcIP: IP, dstIP: IP, srcPort: nat, dstPort: nat, vni: nat)
    | KernelMech(interfaceName: string)
    | MemifMech(socketFilename: string)
    | OtherMech

  datatype Connection = Connection(payload: Payload, mechanism: Mechanism)

  datatype Device =
    | WgInterface(src: Address, port: nat)
    | Tunnel(src: Address, dst: Address, port: nat, vni: nat)
    | Tap(hostIfName: string, tun: bool)
    | MemifInterface(socketID: nat)

  /** A peer of a wireguard interface: the key and where to reach it. */
  datatype WgPeer = WgPeer(swIfIndex: nat, publicKey: string, endpoint: Address, port: nat)

  /** Sockets name their file. */
  datatype VppState = VppState(ifs: map<nat, Device>, peers: map<nat, WgPeer>, sockets: map<nat, string>)

  datatype PeerKey = PeerKey(isClient: bool, pubKey: string)

  /** The request that made a socket; undoing it clears the flag but keeps the record. */
  datatype Socket = Socket(isAdd: bool, id: nat, filename: string)

  /** The metadata of a connection, of both its sides: each side has an interface index, a wireguard key or none, peers
      by key, and a socket record. */
  datatype Metadata = Metadata(ifindex: map<bool, nat>, wgKeys: set<bool>, peers: map<PeerKey, nat>, sockets: map<bool, Socket>)

  datatype State = State(v: VppState, m: Metadata, calls: nat, undos: nat)

  datatype Kind = Wireguard | Peer | Vxlan | KernelTap | MemifElement | Other

  datatype Element = Element(kind: Kind, isClient: bool)

  /** What does not change while a connection lives: the answers to calls that make something (`o`), the answers to calls
      that undo something (`d`), the connection as each side sees it, which strings are wireguard keys, and whether VPP
      keeps a socket that an interface uses when it is asked to delete it. */
  datatype Config = Config(o: Oracle, d: Oracle, conn: bool -> Connection, isKey: string -> bool, keepsUsed: bool)

  const NO_METADATA := Metadata(map[], {}, map[], map[])

  // ---- Calls ----

  function Called(s: State): State {
    s.(calls := s.calls + 1)
  }

  function Undone(s: State): State {
    s.(undos := s.undos + 1)
  }

  /** A new interface, stored in the metadata. */
  function AddInterface(c: Config, s: State, isClient: bool, device: Device): (State, bool) {
    if !c.o(s.calls).ok then (Called(s), false)
    else
      var i := Allocate(s.v.ifs.Keys, c.o(s.calls).hint);
      (Called(s).(v := s.v.(ifs := s.v.ifs[i := device]), m := s.m.(ifindex := s.m.ifindex[isClient := i])), true)
  }

  /** The index is taken out of the metadata first. */
  function DeleteInterface(c: Config, s: State, isClient: bool): (State, bool) {
    if isClient !in s.m.ifindex then (s, true)
    else
      var i := s.m.ifindex[isClient];
      var s1 := Undone(s).(m := s.m.(ifindex := s.m.ifindex - {isClient}));
      if c.d(s.undos).ok then (s1.(v := s.v.(ifs := s.v.ifs - {i})), true) else (s1, false)
  }

  /** A step that can only fail. */
  function Try(c: Config, s: State): (State, bool) {
    (Called(s), c.o(s.calls).ok)
  }

  // ---- Wireguard ----

  /** Each side's interface is at its own address and port. */
  function WgInterfaceOf(mechanism: Mechanism, isClient: bool): Device
    requires mechanism.WireguardMech?
  {
    if isClient then WgInterface(ToVppAddress(mechanism.srcIP), mechanism.srcPort)
    else WgInterface(ToVppAddress(mechanism.dstIP), mechanism.dstPort)
  }

  function AfterCreateWireguard(c: Config, s: State, isClient: bool): (State, bool) {
    if !c.conn(isClient).mechanism.WireguardMech? || isClient in s.m.wgKeys then (s, true)
    else
      var (s1, ok) := AddInterface(c, s, isClient, WgInterfaceOf(c.conn(isClient).mechanism, isClient));
      if ok then (s1.(m := s1.m.(wgKeys := s1.m.wgKeys + {isClient})), true) else (s1, false)
  }

  function AfterDelWireguard(c: Config, s: State, isClient: bool): State {
    if !c.conn(isClient).mechanism.WireguardMech? || isClient !in s.m.wgKeys then s
    else DeleteInterface(c, s.(m := s.m.(wgKeys := s.m.wgKeys - {isClient})), isClient).0
  }

  /** The other side's key. */
  function GetKey(mechanism: Mechanism, isClient: bool): string
    requires mechanism.WireguardMech?
  {
    if isClient then mechanism.dstPublicKey else mechanism.srcPublicKey
  }

  function PeerKeyOf(c: Config, isClient: bool): PeerKey
    requires c.conn(isClient).mechanism.WireguardMech?
  {
    PeerKey(isClient, GetKey(c.conn(isClient).mechanism, isClient))
  }

  /** The peer is the other side, at its address and port. */
  function WgPeerOf(mechanism: Mechanism, isClient: bool, swIfIndex: nat): WgPeer
    requires mechanism.WireguardMech?
  {
    if isClient then WgPeer(swIfIndex, GetKey(mechanism, isClient), ToVppAddress(mechanism.dstIP), mechanism.dstPort)
    else WgPeer(swIfIndex, GetKey(mechanism, isClient), ToVppAddress(mechanism.srcIP), mechanism.srcPort)
  }

  function AfterCreatePeer(c: Config, s: State, isClient: bool): (State, bool) {
    if !c.conn(isClient).mechanism.WireguardMech? then (s, true)
    else
      var key := PeerKeyOf(c, isClient);
      if key in s.m.peers || isClient !in s.m.ifindex then (s, true)
      else if !c.isKey(key.pubKey) then (s, false)
      else if !c.o(s.calls).ok then (Called(s), false)
      else
        var i := Allocate(s.v.peers.Keys, c.o(s.calls).hint);
        var peer := WgPeerOf(c.conn(isClient).mechanism, isClient, s.m.ifindex[isClient]);
        (Called(s).(v := s.v.(peers := s.v.peers[i := peer]), m := s.m.(peers := s.m.peers[key := i])), true)
  }

  function AfterDelPeer(c: Config, s: State, isClient: bool): State {
    if !c.conn(isClient).mechanism.WireguardMech? then s
    else
      var key := PeerKeyOf(c, isClient);
      if key !in s.m.peers then s
      else
        var s1 := Undone(s).(m := s.m.(peers := s.m.peers - {key}));
        if c.d(s.undos).ok then s1.(v := s.v.(peers := s.v.peers - {s.m.peers[key]})) else s1
  }

  // ---- Vxlan ----

  function TunnelOf(mechanism: Mechanism, isClient: bool): Device
    requires mechanism.VxlanMech?
  {
    var src, dst := ToVppAddress(mechanism.srcIP), ToVppAddress(mechanism.dstIP);
    if isClient then Tunnel(src, dst, mechanism.srcPort, mechanism.vni) else Tunnel(dst, src, mechanism.dstPort, mechanism.vni)
  }

  function AfterAddVxlan(c: Config, s: State, isClient: bool): (State, bool) {
    var mechanism := c.conn(isClient).mechanism;
    if !mechanism.VxlanMech? || isClient in s.m.ifindex then (s, true)
    else if mechanism.srcIP == [] || mechanism.dstIP == [] then (s, false)
    else
      // the call that adds the next node, then the one that adds the tunnel; VPP refuses a tunnel it has
      var (s1, ok) := Try(c, s);
      if !ok then (s1, false)
      else if TunnelOf(mechanism, isClient) in s.v.ifs.Values then (Called(s1), false)
      else AddInterface(c, s1, isClient, TunnelOf(mechanism, isClient))
  }

  /** A tunnel is deleted by its addresses, not by its index, and the index is forgotten last. */
  function AfterDelVxlan(c: Config, s: State, isClient: bool): (State, bool) {
    var mechanism := c.conn(isClient).mechanism;
    if !mechanism.VxlanMech? || isClient !in s.m.ifindex then (s, true)
    else if mechanism.srcIP == [] || mechanism.dstIP == [] then (s, false)
    else if !c.d(s.undos).ok then (Undone(s), false)
    else
      var tunnel, s1 := TunnelOf(mechanism, isClient), Undone(Undone(s));
      if c.d(s.undos + 1).ok && tunnel in s.v.ifs.Values
      then (s1.(v := s.v.(ifs := Without(s.v.ifs, tunnel)), m := s.m.(ifindex := s.m.ifindex - {isClient})), true)
      else (s1, false)
  }

  function Without(ifs: map<nat, Device>, tunnel: Device): map<nat, Device> {
    map i | i in ifs && ifs[i] != tunnel :: ifs[i]
  }

  // ---- Kernel ----

  /** The netlink handle, the link's own name, the namespace's file name and the settings of the link are steps that
      can fail; the interface is stored before the last four of them. */
  function AfterCreateTap(c: Config, s: State, isClient: bool): (State, bool) {
    if !c.conn(isClient).mechanism.KernelMech? then (s, true)
    else
      var (s1, ok) := Try(c, s);
      if !ok then (s1, false)
      else if isClient in s.m.ifindex && Try(c, s1).1 then (Called(s1), true)
      else NewTap(c, AfterDelTap(c, if isClient in s.m.ifindex then Called(s1) else s1, isClient), isClient)
  }

  /** With an Ethernet payload the other end is no TUN device. */
  function TapOf(conn: Connection): Device
    requires conn.mechanism.KernelMech?
  {
    Tap(conn.mechanism.interfaceName, conn.payload != PayloadEthernet)
  }

  function NewTap(c: Config, s: State, isClient: bool): (State, bool)
    requires c.conn(isClient).mechanism.KernelMech?
  {
    var (s1, ok1) := Try(c, s);
    if !ok1 then (s1, false)
    else
      var (s2, ok2) := AddInterface(c, s1, isClient, TapOf(c.conn(isClient)));
      if !ok2 then (s2, false) else TryAll(c, s2, 4)
  }

  /** Steps that can only fail, up to the first that does. */
  function TryAll(c: Config, s: State, n: nat): (State, bool)
    decreases n
  {
    if n == 0 then (s, true)
    else
      var (s1, ok) := Try(c, s);
      if ok then TryAll(c, s1, n - 1) else (s1, false)
  }

  function AfterDelTap(c: Config, s: State, isClient: bool): State {
    if !c.conn(isClient).mechanism.KernelMech? then s else DeleteInterface(c, s, isClient).0
  }

  // ---- Memif ----

  function AfterCreateMemif(c: Config, s: State, isClient: bool): (State, bool) {
    var mechanism := c.conn(isClient).mechanism;
    if !mechanism.MemifMech? then (s, true)
    else if isClient !in s.m.ifindex then NewMemif(c, AfterDelMemif(c, s, isClient), isClient)
    else
      // working out the file name can fail
      var (s1, ok) := Try(c, s);
      if !ok then (s1, false)
      else if isClient in s.m.sockets && s.m.sockets[isClient].filename == mechanism.socketFilename then (s1, true)
      else NewMemif(c, AfterDelMemif(c, s1, isClient), isClient)
  }

  function NewMemif(c: Config, s: State, isClient: bool): (State, bool)
    requires c.conn(isClient).mechanism.MemifMech?
  {
    var (s1, ok) := AddSocket(c, s, isClient, c.conn(isClient).mechanism.socketFilename);
    if !ok then (s1, false) else AddInterface(c, s1, isClient, MemifInterface(s1.m.sockets[isClient].id))
  }

  function AddSocket(c: Config, s: State, isClient: bool, filename: string): (r: (State, bool))
    ensures r.1 ==> isClient in r.0.m.sockets
  {
    var (s1, ok) := Try(c, s);
    if !ok then (s1, false)
    else if !c.o(s1.calls).ok then (Called(s1), false)
    else
      var id := Allocate(s.v.sockets.Keys, c.o(s1.calls).hint);
      (Called(s1).(v := s.v.(sockets := s.v.sockets[id := filename]),
                   m := s.m.(sockets := s.m.sockets[isClient := Socket(true, id, filename)])), true)
  }

  /** The record stays, so that a later call deletes by the same number again. */
  function DeleteSocket(c: Config, s: State, isClient: bool): State {
    if isClient !in s.m.sockets then s
    else
      var socket := s.m.sockets[isClient];
      var s1 := Undone(s).(m := s.m.(sockets := s.m.sockets[isClient := socket.(isAdd := false)]));
      if c.d(s.undos).ok && !Refuses(c, s.v.ifs, socket.id)
      then s1.(v := s.v.(sockets := s.v.sockets - {socket.id})) else s1
  }

  predicate Refuses(c: Config, ifs: map<nat, Device>, id: nat) {
    c.keepsUsed && MemifInterface(id) in ifs.Values
  }

  function AfterDelMemif(c: Config, s: State, isClient: bool): State {
    if !c.conn(isClient).mechanism.MemifMech? then s
    else
      var (s1, ok) := DeleteInterface(c, s, isClient);
      if ok then DeleteSocket(c, s1, isClient) else s1
  }

  // ---- The chain ----

  function AfterCreate(c: Config, s: State, e: Element): (State, bool) {
    match e.kind
    case Wireguard => if c.conn(e.isClient).payload == PayloadIP then AfterCreateWireguard(c, s, e.isClient) else (s, true)
    case Peer => AfterCreatePeer(c, s, e.isClient)
    case Vxlan => if c.conn(e.isClient).payload == PayloadEthernet then AfterAddVxlan(c, s, e.isClient) else (s, true)
    case KernelTap => AfterCreateTap(c, s, e.isClient)
    case MemifElement => AfterCreateMemif(c, s, e.isClient)
    case Other => Try(c, s)
  }

  function AfterDel(c: Config, s: State, e: Element): State {
    match e.kind
    case Wireguard => if c.conn(e.isClient).payload == PayloadIP then AfterDelWireguard(c, s, e.isClient) else s
    case Peer => AfterDelPeer(c, s, e.isClient)
    case Vxlan => if c.conn(e.isClient).payload == PayloadEthernet then AfterDelVxlan(c, s, e.isClient).0 else s
    case KernelTap => AfterDelTap(c, s, e.isClient)
    case MemifElement => AfterDelMemif(c, s, e.isClient)
    case Other => s
  }

  function AfterClose(c: Config, s: State, chain: seq<Element>): State
    decreases |chain|
  {
    if chain == [] then s else AfterClose(c, AfterDel(c, s, chain[0]), chain[1..])
  }

  /** The end of the chain is the other side, which may refuse. */
  function AfterRequest(c: Config, s: State, chain: seq<Element>): (State, bool)
    decreases |chain|
  {
    if chain == [] then Try(c, s)
    else
      var (s1, ok1) := AfterRequest(c, s, chain[1..]);
      if !ok1 then (s1, false)
      else
        var (s2, ok2) := AfterCreate(c, s1, chain[0]);
        if ok2 then (s2, true) else (AfterClose(c, s2, chain), false)
  }

  // ---- Accounts ----

  /** What is alive is what was there before and what the metadata hold, each held thing once. */
  ghost predicate Accounted<S(!new), V(!new)>(base: map<nat, V>, live: map<nat, V>, held: map<S, nat>) {
    && (forall a, b :: a in held && b in held && held[a] == held[b] ==> a == b)
    && (forall a :: a in held ==> held[a] in live && held[a] !in base)
    && (forall i :: i in base ==> i in live && live[i] == base[i])
    && (forall i :: i in live && i !in base ==> i in held.Values)
  }

  lemma Gained<S(!new), V(!new)>(base: map<nat, V>, live: map<nat, V>, held: map<S, nat>, slot: S, i: nat, value: V)
    requires Accounted(base, live, held) && slot !in held && i !in live
    ensures Accounted(base, live[i := value], held[slot := i])
  {
    var held' := held[slot := i];
    forall j | j in live[i := value] && j !in base
      ensures j in held'.Values
    {
      if j == i { assert held'[slot] == i; } else {
        var a :| a in held && held[a] == j;
        assert held'[a] == j;
      }
    }
  }

  lemma Lost<S(!new), V(!new)>(base: map<nat, V>, live: map<nat, V>, held: map<S, nat>, slot: S)
    requires Accounted(base, live, held) && slot in held
    ensures Accounted(base, live - {held[slot]}, held - {slot})
  {
    var held' := held - {slot};
    forall j | j in live - {held[slot]} && j !in base
      ensures j in held'.Values
    {
      var a :| a in held && held[a] == j;
      assert held'[a] == j;
    }
  }

  lemma NothingHeld<S(!new), V(!new)>(base: map<nat, V>, live: map<nat, V>, held: map<S, nat>)
    requires Accounted(base, live, held) && held == map[]
    ensures live == base
  {
  }

  /** The socket records that stand for a socket. */
  function LiveSockets(sockets: map<bool, Socket>): map<bool, nat> {
    map side | side in sockets && sockets[side].isAdd :: sockets[side].id
  }

  ghost predicate TunnelsDiffer(ifs: map<nat, Device>) {
    forall i, j :: i in ifs && j in ifs && ifs[i] == ifs[j] && ifs[i].Tunnel? ==> i == j
  }

  /** The interface of a vxlan side is the tunnel of its addresses. */
  ghost predicate TunnelsFit(c: Config, ifs: map<nat, Device>, ifindex: map<bool, nat>) {
    forall side :: side in ifindex && c.conn(side).mechanism.VxlanMech? ==>
      TunnelFits(c.conn(side).mechanism, side, ifs, ifindex[side])
  }

  predicate TunnelFits(mechanism: Mechanism, isClient: bool, ifs: map<nat, Device>, i: nat)
    requires mechanism.VxlanMech?
  {
    mechanism.srcIP != [] && mechanism.dstIP != [] && i in ifs && ifs[i] == TunnelOf(mechanism, isClient)
  }

  ghost predicate KeysFit(c: Config, wgKeys: set<bool>, ifindex: map<bool, nat>) {
    forall side :: side in wgKeys <==> side in ifindex && c.conn(side).mechanism.WireguardMech?
  }

  /** Memif sides have memif interfaces and vxlan sides tunnels, and no others have. */
  ghost predicate DevicesFit(c: Config, ifs: map<nat, Device>, ifindex: map<bool, nat>) {
    forall side :: side in ifindex ==>
      && ifindex[side] in ifs && (ifs[ifindex[side]].MemifInterface? <==> c.conn(side).mechanism.MemifMech?)
      && (ifs[ifindex[side]].Tunnel? ==> c.conn(side).mechanism.VxlanMech?)
  }

  ghost predicate IfsInOrder(c: Config, base: map<nat, Device>, ifs: map<nat, Device>, ifindex: map<bool, nat>) {
    Accounted(base, ifs, ifindex) && TunnelsDiffer(ifs) && TunnelsFit(c, ifs, ifindex) && DevicesFit(c, ifs, ifindex)
  }

  ghost predicate SocketsInOrder(c: Config, base: map<nat, string>, live: map<nat, string>, sockets: map<bool, Socket>) {
    && Accounted(base, live, LiveSockets(sockets))
    && forall side :: side in sockets ==> c.conn(side).mechanism.MemifMech?
  }

  ghost predicate PoolsInOrder(c: Config, base: VppState, s: State) {
    && IfsInOrder(c, base.ifs, s.v.ifs, s.m.ifindex)
    && Accounted(base.peers, s.v.peers, s.m.peers)
    && SocketsInOrder(c, base.sockets, s.v.sockets, s.m.sockets)
  }

  /** A memif interface uses a socket that is there. */
  ghost predicate MemifsFit(v: VppState) {
    forall i :: i in v.ifs && v.ifs[i].MemifInterface? ==> v.ifs[i].socketID in v.sockets
  }

  /** The memif interface of a side uses the socket of the side's record. */
  ghost predicate UsesOwn(c: Config, s: State) {
    forall side :: side in s.m.ifindex && c.conn(side).mechanism.MemifMech? ==>
      && side in s.m.sockets && s.m.sockets[side].isAdd
      && s.m.ifindex[side] in s.v.ifs && s.v.ifs[s.m.ifindex[side]] == MemifInterface(s.m.sockets[side].id)
  }

  /** The number belongs to the live socket of a side, which an interface uses, or is about to (`loose`). */
  predicate TakenBy(m: Metadata, side: bool, id: nat, loose: set<bool>) {
    && side in m.sockets && m.sockets[side].isAdd && m.sockets[side].id == id
    && (side in m.ifindex || side in loose)
  }

  /** The number of an undone socket is not in use again, or VPP will not delete it: the other side uses it, or something
      that was there before. */
  ghost predicate StaleFits(c: Config, base: VppState, s: State, loose: set<bool>) {
    forall side :: side in s.m.sockets && !s.m.sockets[side].isAdd && s.m.sockets[side].id in s.v.sockets ==>
      c.keepsUsed && (TakenBy(s.m, !side, s.m.sockets[side].id, loose) || MemifInterface(s.m.sockets[side].id) in base.ifs.Values)
  }

  /** A socket has the interface it was made for. */
  ghost predicate LiveUsed(m: Metadata, loose: set<bool>) {
    forall side :: side in m.sockets && m.sockets[side].isAdd ==> side in m.ifindex || side in loose
  }

  ghost predicate Backed(c: Config, base: VppState, s: State, loose: set<bool>) {
    MemifsFit(base) && UsesOwn(c, s) && StaleFits(c, base, s, loose) && LiveUsed(s.m, loose)
  }

  /** What is alive is accounted for, and the metadata fit together. */
  ghost predicate InOrder(c: Config, base: VppState, s: State) {
    AlmostInOrder(c, base, s, {})
  }

  /** The same, but for the sides in `loose`, whose socket may have no interface yet. */
  ghost predicate AlmostInOrder(c: Config, base: VppState, s: State, loose: set<bool>) {
    KeysFit(c, s.m.wgKeys, s.m.ifindex) && PoolsInOrder(c, base, s) && Backed(c, base, s, loose)
  }

  lemma AddInterfaceIfs(c: Config, base: map<nat, Device>, ifs: map<nat, Device>, ifindex: map<bool, nat>, side: bool, i: nat, device: Device)
    requires IfsInOrder(c, base, ifs, ifindex) && side !in ifindex && i !in ifs
    requires device.Tunnel? ==> device !in ifs.Values
    requires var m := c.conn(side).mechanism; m.VxlanMech? ==> m.srcIP != [] && m.dstIP != [] && device == TunnelOf(m, side)
    requires (device.MemifInterface? <==> c.conn(side).mechanism.MemifMech?) && (device.Tunnel? ==> c.conn(side).mechanism.VxlanMech?)
    ensures IfsInOrder(c, base, ifs[i := device], ifindex[side := i])
  {
    hide TunnelOf, Accounted, DevicesFit, TunnelsFit, TunnelsDiffer;
    Gained(base, ifs, ifindex, side, i, device);
    NewTunnel(ifs, i, device);
    NewFits(c, ifs, ifindex, side, i, device);
  }

  lemma NewTunnel(ifs: map<nat, Device>, i: nat, device: Device)
    requires TunnelsDiffer(ifs) && i !in ifs && (device.Tunnel? ==> device !in ifs.Values)
    ensures TunnelsDiffer(ifs[i := device])
  {
    assert forall j :: j in ifs ==> ifs[j] in ifs.Values;
  }

  lemma NewFits(c: Config, ifs: map<nat, Device>, ifindex: map<bool, nat>, side: bool, i: nat, device: Device)
    requires TunnelsFit(c, ifs, ifindex) && DevicesFit(c, ifs, ifindex) && i !in ifs
    requires var m := c.conn(side).mechanism; m.VxlanMech? ==> m.srcIP != [] && m.dstIP != [] && device == TunnelOf(m, side)
    requires (device.MemifInterface? <==> c.conn(side).mechanism.MemifMech?) && (device.Tunnel? ==> c.conn(side).mechanism.VxlanMech?)
    ensures TunnelsFit(c, ifs[i := device], ifindex[side := i]) && DevicesFit(c, ifs[i := device], ifindex[side := i])
  {
    hide TunnelOf;
  }

  lemma DropInterfaceIfs(c: Config, base: map<nat, Device>, ifs: map<nat, Device>, ifindex: map<bool, nat>, side: bool)
    requires IfsInOrder(c, base, ifs, ifindex) && side in ifindex
    ensures IfsInOrder(c, base, ifs - {ifindex[side]}, ifindex - {side})
  {
    hide TunnelOf;
    Lost(base, ifs, ifindex, side);
    assert forall a :: a in ifindex && a != side ==> ifindex[a] != ifindex[side];
    hide Accounted;
  }

  /** Deleting a tunnel by its addresses deletes the interface of the metadata. */
  lemma WithoutIsDrop(c: Config, base: map<nat, Device>, ifs: map<nat, Device>, ifindex: map<bool, nat>, side: bool)
    requires IfsInOrder(c, base, ifs, ifindex) && side in ifindex && c.conn(side).mechanism.VxlanMech?
    ensures TunnelFits(c.conn(side).mechanism, side, ifs, ifindex[side])
    ensures TunnelOf(c.conn(side).mechanism, side) in ifs.Values
    ensures Without(ifs, TunnelOf(c.conn(side).mechanism, side)) == ifs - {ifindex[side]}
  {
    assert TunnelOf(c.conn(side).mechanism, side).Tunnel?;
    hide Accounted, TunnelOf;
  }

  predicate InterfaceAdded(m: Metadata, m': Metadata, side: bool) {
    m' == m.(ifindex := m'.ifindex) && m'.ifindex.Keys - {side} == m.ifindex.Keys - {side}
  }

  /** Nothing has changed for the other side and for the sockets. */
  ghost predicate Elsewhere(s: State, s': State, side: bool) {
    && s'.v.sockets == s.v.sockets && s'.m.sockets == s.m.sockets
    && s'.m.ifindex - {side} == s.m.ifindex - {side}
    && (!side in s.m.ifindex ==>
          var i := s.m.ifindex[!side]; i in s.v.ifs && i in s'.v.ifs && s'.v.ifs[i] == s.v.ifs[i])
  }

  lemma BackedElsewhere(c: Config, base: VppState, s: State, s': State, side: bool, loose: set<bool>)
    requires Backed(c, base, s, loose) && Elsewhere(s, s', side) && !c.conn(side).mechanism.MemifMech?
    requires forall x :: x in s.m.sockets ==> c.conn(x).mechanism.MemifMech?
    ensures Backed(c, base, s', loose)
  {
    OtherIndex(s.m.ifindex, s'.m.ifindex, side);
    forall x, id | TakenBy(s.m, x, id, loose)
      ensures TakenBy(s'.m, x, id, loose)
    {
    }
  }

  lemma SameBacked(c: Config, base: VppState, s: State, s': State, loose: set<bool>)
    requires Backed(c, base, s, loose)
    requires s'.v == s.v && s'.m.ifindex == s.m.ifindex && s'.m.sockets == s.m.sockets
    ensures Backed(c, base, s', loose)
  {
    assert forall x, id :: TakenBy(s'.m, x, id, loose) <==> TakenBy(s.m, x, id, loose);
  }

  /** What only counts calls changes nothing. */
  lemma SameInOrder(c: Config, base: VppState, s: State, s': State)
    requires InOrder(c, base, s) && s'.v == s.v && s'.m == s.m
    ensures InOrder(c, base, s')
  {
    hide PoolsInOrder, Backed, KeysFit;
    SamePools(c, base, s, s');
    SameBacked(c, base, s, s', {});
  }

  lemma AddElsewhere(c: Config, s: State, side: bool, device: Device, base: map<nat, Device>)
    requires Accounted(base, s.v.ifs, s.m.ifindex) && side !in s.m.ifindex
    ensures Elsewhere(s, AddInterface(c, s, side, device).0, side)
  {
    assert !side in s.m.ifindex ==> s.m.ifindex[!side] in s.v.ifs;
    hide Accounted, FirstFree;
    var i := Allocate(s.v.ifs.Keys, c.o(s.calls).hint);
    assert s.m.ifindex[side := i] - {side} == s.m.ifindex - {side};
  }

  lemma DeleteElsewhere(c: Config, s: State, side: bool, base: map<nat, Device>)
    requires Accounted(base, s.v.ifs, s.m.ifindex)
    ensures Elsewhere(s, DeleteInterface(c, s, side).0, side)
  {
    assert !side in s.m.ifindex ==> s.m.ifindex[!side] in s.v.ifs;
    assert !side in s.m.ifindex && side in s.m.ifindex ==> s.m.ifindex[!side] != s.m.ifindex[side];
    assert s.m.ifindex - {side} - {side} == s.m.ifindex - {side};
    hide Accounted;
  }

  lemma AddInterfaceKeeps(c: Config, base: VppState, s: State, side: bool, device: Device)
    requires PoolsInOrder(c, base, s) && side !in s.m.ifindex
    requires device.Tunnel? ==> device !in s.v.ifs.Values
    requires var m := c.conn(side).mechanism; m.VxlanMech? ==> m.srcIP != [] && m.dstIP != [] && device == TunnelOf(m, side)
    requires (device.MemifInterface? <==> c.conn(side).mechanism.MemifMech?) && (device.Tunnel? ==> c.conn(side).mechanism.VxlanMech?)
    ensures PoolsInOrder(c, base, AddInterface(c, s, side, device).0)
    ensures InterfaceAdded(s.m, AddInterface(c, s, side, device).0.m, side)
    ensures Elsewhere(s, AddInterface(c, s, side, device).0, side)
  {
    AddElsewhere(c, s, side, device, base.ifs);
    hide IfsInOrder, SocketsInOrder, Accounted, FirstFree, TunnelOf, Elsewhere;
    var i := Allocate(s.v.ifs.Keys, c.o(s.calls).hint);
    AddInterfaceIfs(c, base.ifs, s.v.ifs, s.m.ifindex, side, i, device);
  }

  lemma DeleteInterfaceKeeps(c: Config, base: VppState, s: State, side: bool)
    requires PoolsInOrder(c, base, s) && NeverFails(c.d)
    ensures var (s', ok) := DeleteInterface(c, s, side);
            ok && PoolsInOrder(c, base, s') && s'.m == s.m.(ifindex := s.m.ifindex - {side}) && Elsewhere(s, s', side)
  {
    DeleteElsewhere(c, s, side, base.ifs);
    hide IfsInOrder, SocketsInOrder, Accounted, Elsewhere;
    if side in s.m.ifindex { DropInterfaceIfs(c, base.ifs, s.v.ifs, s.m.ifindex, side); }
    assert side !in s.m.ifindex ==> s.m.ifindex - {side} == s.m.ifindex;
  }

  lemma KeysFitDrop(c: Config, wgKeys: set<bool>, ifindex: map<bool, nat>, side: bool)
    requires KeysFit(c, wgKeys, ifindex)
    ensures KeysFit(c, wgKeys - {side}, ifindex - {side})
    ensures !c.conn(side).mechanism.WireguardMech? ==> wgKeys - {side} == wgKeys
  {
  }

  lemma CreateWireguardKeeps(c: Config, base: VppState, s: State, side: bool)
    requires InOrder(c, base, s)
    ensures InOrder(c, base, AfterCreateWireguard(c, s, side).0)
  {
    SocketSides(c, base, s);
    hide PoolsInOrder, AddInterface, Backed, Elsewhere;
    if c.conn(side).mechanism.WireguardMech? && side !in s.m.wgKeys {
      var device := WgInterfaceOf(c.conn(side).mechanism, side);
      AddInterfaceKeeps(c, base, s, side, device);
      var (s1, ok) := AddInterface(c, s, side, device);
      BackedElsewhere(c, base, s, s1, side, {});
      AddedIff(c, s, side, device);
      if ok {
        var s2 := s1.(m := s1.m.(wgKeys := s1.m.wgKeys + {side}));
        SamePools(c, base, s1, s2);
        SameBacked(c, base, s1, s2, {});
      }
    }
  }

  lemma SocketSides(c: Config, base: VppState, s: State)
    requires PoolsInOrder(c, base, s)
    ensures forall x :: x in s.m.sockets ==> c.conn(x).mechanism.MemifMech?
  {
  }

  lemma AddedIff(c: Config, s: State, side: bool, device: Device)
    ensures var (s', ok) := AddInterface(c, s, side, device);
            && s'.m.ifindex.Keys == (if ok then s.m.ifindex.Keys + {side} else s.m.ifindex.Keys)
            && (!ok ==> s' == Called(s))
  {
    hide FirstFree;
  }

  lemma SamePools(c: Config, base: VppState, s: State, s': State)
    requires PoolsInOrder(c, base, s)
    requires s'.v == s.v && s'.m.ifindex == s.m.ifindex && s'.m.peers == s.m.peers && s'.m.sockets == s.m.sockets
    ensures PoolsInOrder(c, base, s')
  {
    hide IfsInOrder, SocketsInOrder, Accounted;
  }

  lemma DelWireguardKeeps(c: Config, base: VppState, s: State, side: bool)
    requires InOrder(c, base, s) && NeverFails(c.d)
    ensures InOrder(c, base, AfterDelWireguard(c, s, side))
    ensures var m := AfterDelWireguard(c, s, side).m;
            m.peers == s.m.peers && m.sockets == s.m.sockets &&
            m.ifindex == if c.conn(side).mechanism.WireguardMech? then s.m.ifindex - {side} else s.m.ifindex
  {
    SocketSides(c, base, s);
    hide PoolsInOrder, DeleteInterface, Backed, Elsewhere;
    KeysFitDrop(c, s.m.wgKeys, s.m.ifindex, side);
    if c.conn(side).mechanism.WireguardMech? {
      if side in s.m.wgKeys {
        var s1 := s.(m := s.m.(wgKeys := s.m.wgKeys - {side}));
        SamePools(c, base, s, s1);
        SameBacked(c, base, s, s1, {});
        DeleteInterfaceKeeps(c, base, s1, side);
        BackedElsewhere(c, base, s1, DeleteInterface(c, s1, side).0, side, {});
      } else {
        assert s.m.ifindex - {side} == s.m.ifindex;
      }
    }
  }

  /** Peers have nothing to do with sockets. */
  lemma PeersBacked(c: Config, base: VppState, s: State, s': State)
    requires Backed(c, base, s, {})
    ensures s'.v.ifs == s.v.ifs && s'.v.sockets == s.v.sockets && s'.m.ifindex == s.m.ifindex && s'.m.sockets == s.m.sockets ==>
            Backed(c, base, s', {})
  {
    assert s'.m.ifindex == s.m.ifindex && s'.m.sockets == s.m.sockets ==>
      forall x, id :: TakenBy(s'.m, x, id, {}) <==> TakenBy(s.m, x, id, {});
  }

  lemma CreatePeerKeeps(c: Config, base: VppState, s: State, side: bool)
    requires InOrder(c, base, s)
    ensures InOrder(c, base, AfterCreatePeer(c, s, side).0)
  {
    var s' := AfterCreatePeer(c, s, side).0;
    PeersBacked(c, base, s, s');
    PeersAccounted(c, base.peers, s, side);
    PeersOnly(c, s, side);
    hide IfsInOrder, SocketsInOrder, KeysFit, Accounted, Backed, AfterCreatePeer;
  }

  lemma PeersAccounted(c: Config, base: map<nat, WgPeer>, s: State, side: bool)
    requires Accounted(base, s.v.peers, s.m.peers)
    ensures var s' := AfterCreatePeer(c, s, side).0; Accounted(base, s'.v.peers, s'.m.peers)
  {
    hide Accounted, FirstFree, WgPeerOf;
    if c.conn(side).mechanism.WireguardMech? && side in s.m.ifindex && PeerKeyOf(c, side) !in s.m.peers {
      var peer := WgPeerOf(c.conn(side).mechanism, side, s.m.ifindex[side]);
      Gained(base, s.v.peers, s.m.peers, PeerKeyOf(c, side), Allocate(s.v.peers.Keys, c.o(s.calls).hint), peer);
    }
  }

  lemma PeersOnly(c: Config, s: State, side: bool)
    ensures var s' := AfterCreatePeer(c, s, side).0;
            && s'.v == s.v.(peers := s'.v.peers) && s'.m == s.m.(peers := s'.m.peers)
  {
    hide FirstFree;
  }

  lemma DelPeerKeeps(c: Config, base: VppState, s: State, side: bool)
    requires InOrder(c, base, s) && NeverFails(c.d)
    ensures InOrder(c, base, AfterDelPeer(c, s, side))
    ensures var m := AfterDelPeer(c, s, side).m;
            m.ifindex == s.m.ifindex && m.sockets == s.m.sockets &&
            m.peers == if c.conn(side).mechanism.WireguardMech? then s.m.peers - {PeerKeyOf(c, side)} else s.m.peers
  {
    PeersBacked(c, base, s, AfterDelPeer(c, s, side));
    hide IfsInOrder, SocketsInOrder, KeysFit, Accounted, Backed;
    if c.conn(side).mechanism.WireguardMech? {
      var key := PeerKeyOf(c, side);
      if key in s.m.peers { Lost(base.peers, s.v.peers, s.m.peers, key); }
      else { assert s.m.peers - {key} == s.m.peers; }
    }
  }

  lemma AddVxlanKeeps(c: Config, base: VppState, s: State, side: bool)
    requires InOrder(c, base, s)
    ensures InOrder(c, base, AfterAddVxlan(c, s, side).0)
  {
    SocketSides(c, base, s);
    hide PoolsInOrder, TunnelOf, AddInterface, Backed, Elsewhere, KeysFit;
    var m := c.conn(side).mechanism;
    if m.VxlanMech? && side !in s.m.ifindex {
      SameInOrder(c, base, s, Called(s));
      SameInOrder(c, base, s, Called(Called(s)));
      if m.srcIP != [] && m.dstIP != [] && TunnelOf(m, side) !in s.v.ifs.Values {
        assert TunnelOf(m, side).Tunnel? by { TunnelIsTunnel(m, side); }
        AddOther(c, base, Called(s), side, TunnelOf(m, side));
      }
    }
  }

  lemma TunnelIsTunnel(m: Mechanism, side: bool)
    requires m.VxlanMech?
    ensures TunnelOf(m, side).Tunnel?
  {
  }

  /** A new interface on a side without memif and without wireguard. */
  lemma AddOther(c: Config, base: VppState, s: State, side: bool, device: Device)
    requires InOrder(c, base, s) && side !in s.m.ifindex && (device.Tunnel? ==> device !in s.v.ifs.Values)
    requires !c.conn(side).mechanism.MemifMech? && !device.MemifInterface? && !c.conn(side).mechanism.WireguardMech?
    requires device.Tunnel? ==> c.conn(side).mechanism.VxlanMech?
    requires var m := c.conn(side).mechanism; m.VxlanMech? ==> m.srcIP != [] && m.dstIP != [] && device == TunnelOf(m, side)
    ensures InOrder(c, base, AddInterface(c, s, side, device).0)
  {
    SocketSides(c, base, s);
    hide PoolsInOrder, AddInterface, Backed, Elsewhere, TunnelOf;
    AddInterfaceKeeps(c, base, s, side, device);
    AddedIff(c, s, side, device);
    BackedElsewhere(c, base, s, AddInterface(c, s, side, device).0, side, {});
  }

  lemma DelVxlanKeeps(c: Config, base: VppState, s: State, side: bool)
    requires InOrder(c, base, s) && NeverFails(c.d)
    ensures InOrder(c, base, AfterDelVxlan(c, s, side).0) && AfterDelVxlan(c, s, side).1
    ensures var m := AfterDelVxlan(c, s, side).0.m;
            m.peers == s.m.peers && m.sockets == s.m.sockets &&
            m.ifindex == if c.conn(side).mechanism.VxlanMech? then s.m.ifindex - {side} else s.m.ifindex
  {
    var m := c.conn(side).mechanism;
    KeysFitDrop(c, s.m.wgKeys, s.m.ifindex, side);
    if m.VxlanMech? {
      if side in s.m.ifindex {
        SocketSides(c, base, s);
        assert !side in s.m.ifindex ==> s.m.ifindex[!side] in s.v.ifs && s.m.ifindex[!side] != s.m.ifindex[side];
        assert s.m.ifindex - {side} - {side} == s.m.ifindex - {side};
        hide SocketsInOrder, TunnelOf, Without, Accounted, IfsInOrder, Backed;
        WithoutIsDrop(c, base.ifs, s.v.ifs, s.m.ifindex, side);
        DropInterfaceIfs(c, base.ifs, s.v.ifs, s.m.ifindex, side);
        BackedElsewhere(c, base, s, AfterDelVxlan(c, s, side).0, side, {});
      } else {
        assert s.m.ifindex - {side} == s.m.ifindex;
      }
    }
  }

  lemma DelTapKeeps(c: Config, base: VppState, s: State, side: bool)
    requires InOrder(c, base, s) && NeverFails(c.d)
    ensures InOrder(c, base, AfterDelTap(c, s, side))
    ensures var m := AfterDelTap(c, s, side).m;
            m.peers == s.m.peers && m.sockets == s.m.sockets &&
            m.ifindex == if c.conn(side).mechanism.KernelMech? then s.m.ifindex - {side} else s.m.ifindex
  {
    SocketSides(c, base, s);
    hide PoolsInOrder, DeleteInterface, Backed, Elsewhere;
    KeysFitDrop(c, s.m.wgKeys, s.m.ifindex, side);
    DeleteInterfaceKeeps(c, base, s, side);
    if c.conn(side).mechanism.KernelMech? { BackedElsewhere(c, base, s, DeleteInterface(c, s, side).0, side, {}); }
  }

  lemma {:induction false} TryAllKeeps(c: Config, base: VppState, s: State, n: nat)
    requires InOrder(c, base, s)
    ensures InOrder(c, base, TryAll(c, s, n).0) && TryAll(c, s, n).0.m == s.m
    decreases n
  {
    hide InOrder;
    if n > 0 {
      SameInOrder(c, base, s, Called(s));
      TryAllKeeps(c, base, Called(s), n - 1);
    }
  }

  lemma NewTapKeeps(c: Config, base: VppState, s: State, side: bool)
    requires InOrder(c, base, s) && side !in s.m.ifindex && c.conn(side).mechanism.KernelMech?
    ensures InOrder(c, base, NewTap(c, s, side).0)
  {
    hide InOrder, AddInterface, TryAll;
    SameInOrder(c, base, s, Called(s));
    var device := TapOf(c.conn(side));
    AddOther(c, base, Called(s), side, device);
    var (s2, ok) := AddInterface(c, Called(s), side, device);
    if ok { TryAllKeeps(c, base, s2, 4); }
  }

  lemma CreateTapKeeps(c: Config, base: VppState, s: State, side: bool)
    requires InOrder(c, base, s) && NeverFails(c.d)
    ensures InOrder(c, base, AfterCreateTap(c, s, side).0)
  {
    hide InOrder, NewTap, AfterDelTap;
    if c.conn(side).mechanism.KernelMech? {
      SameInOrder(c, base, s, Called(s));
      SameInOrder(c, base, s, Called(Called(s)));
      var s1 := if side in s.m.ifindex then Called(Called(s)) else Called(s);
      DelTapKeeps(c, base, s1, side);
      NewTapKeeps(c, base, AfterDelTap(c, s1, side), side);
    }
  }

  // ---- Sockets ----

  /** The socket of the other side has not been undone, or VPP keeps it while it is used. */
  predicate OtherSideSafe(c: Config, sockets: map<bool, Socket>, side: bool) {
    c.keepsUsed || (!side in sockets ==> sockets[!side].isAdd)
  }

  lemma AddSocketSockets(
    c: Config, base: map<nat, string>, live: map<nat, string>, sockets: map<bool, Socket>, side: bool, id: nat, filename: string)
    requires SocketsInOrder(c, base, live, sockets) && id !in live && c.conn(side).mechanism.MemifMech?
    requires side !in LiveSockets(sockets)
    ensures SocketsInOrder(c, base, live[id := filename], sockets[side := Socket(true, id, filename)])
  {
    var sockets' := sockets[side := Socket(true, id, filename)];
    assert LiveSockets(sockets') == LiveSockets(sockets)[side := id];
    Gained(base, live, LiveSockets(sockets), side, id, filename);
    hide Accounted, LiveSockets;
  }

  lemma DropSocketSockets(c: Config, base: map<nat, string>, live: map<nat, string>, sockets: map<bool, Socket>, side: bool)
    requires SocketsInOrder(c, base, live, sockets) && side in sockets && sockets[side].isAdd
    ensures SocketsInOrder(c, base, live - {sockets[side].id}, sockets[side := sockets[side].(isAdd := false)])
    ensures LiveSockets(sockets[side := sockets[side].(isAdd := false)]) == LiveSockets(sockets) - {side}
  {
    var sockets' := sockets[side := sockets[side].(isAdd := false)];
    assert LiveSockets(sockets') == LiveSockets(sockets) - {side};
    Lost(base, live, LiveSockets(sockets), side);
    hide Accounted, LiveSockets;
  }

  predicate SameOtherSide(sockets: map<bool, Socket>, sockets': map<bool, Socket>, side: bool) {
    (!side in sockets' <==> !side in sockets) && (!side in sockets ==> sockets'[!side] == sockets[!side])
  }

  lemma KeyOfValue<S, V>(m: map<S, V>, v: V) returns (k: S)
    requires v in m.Values
    ensures k in m && m[k] == v
  {
    k :| k in m && m[k] == v;
  }

  /** No interface but its own uses the socket of a side. */
  lemma OwnSocketOnly(c: Config, base: VppState, s: State, side: bool, i: nat)
    requires PoolsInOrder(c, base, s) && Backed(c, base, s, {side}) && side in s.m.sockets && s.m.sockets[side].isAdd
    requires i in s.v.ifs && s.v.ifs[i] == MemifInterface(s.m.sockets[side].id)
    ensures side in s.m.ifindex && s.m.ifindex[side] == i
  {
    var id := s.m.sockets[side].id;
    assert LiveSockets(s.m.sockets)[side] == id;
    assert id !in base.sockets;
    assert i !in base.ifs;
    var x := KeyOfValue(s.m.ifindex, i);
    assert c.conn(x).mechanism.MemifMech?;
    assert LiveSockets(s.m.sockets)[x] == id;
  }

  /** After an undoing: the interface and the socket of the side are gone, and its record, if any, is marked. */
  ghost predicate MemifUndone(s: State, s': State, side: bool) {
    && s'.m.peers == s.m.peers && s'.m.wgKeys == s.m.wgKeys && s'.m.ifindex == s.m.ifindex - {side}
    && LiveSockets(s'.m.sockets) == LiveSockets(s.m.sockets) - {side}
    && SameOtherSide(s.m.sockets, s'.m.sockets, side) && s'.m.sockets.Keys == s.m.sockets.Keys
  }

  /** Undoing a live socket: nothing but the side's own interface used it, and that has gone before. */
  lemma DelLiveMemif(c: Config, base: VppState, s: State, side: bool)
    requires AlmostInOrder(c, base, s, {side}) && NeverFails(c.d) && c.conn(side).mechanism.MemifMech?
    requires side in s.m.sockets && s.m.sockets[side].isAdd
    ensures InOrder(c, base, AfterDelMemif(c, s, side)) && MemifUndone(s, AfterDelMemif(c, s, side), side)
  {
    hide PoolsInOrder, DeleteInterface, KeysFit, Backed, Elsewhere, LiveSockets, SocketsInOrder, MemifUndone;
    var (s1, ok) := DeleteInterface(c, s, side);
    KeysFitDrop(c, s.m.wgKeys, s.m.ifindex, side);
    DeleteInterfaceKeeps(c, base, s, side);
    NobodyUses(c, base, s, side);
    SocketPart(c, base, s1);
    DropSocketSockets(c, base.sockets, s1.v.sockets, s1.m.sockets, side);
    var s2 := DeleteSocket(c, s1, side);
    SameSockets(s, s1, side);
    DroppedPools(c, base, s1, s2);
    DroppedBacked(c, base, s, s1, s2, side);
    LiveIsUndone(s, s2, side);
  }

  lemma SameSockets(s: State, s': State, side: bool)
    requires Elsewhere(s, s', side)
    ensures s'.v.sockets == s.v.sockets
  {
  }

  lemma LiveIsUndone(s: State, s': State, side: bool)
    requires s'.m.peers == s.m.peers && s'.m.wgKeys == s.m.wgKeys && s'.m.ifindex == s.m.ifindex - {side}
    requires side in s.m.sockets && s'.m.sockets == s.m.sockets[side := s.m.sockets[side].(isAdd := false)]
    requires LiveSockets(s'.m.sockets) == LiveSockets(s.m.sockets) - {side}
    ensures MemifUndone(s, s', side)
  {
    hide LiveSockets;
  }

  lemma SocketPart(c: Config, base: VppState, s: State)
    requires PoolsInOrder(c, base, s)
    ensures SocketsInOrder(c, base.sockets, s.v.sockets, s.m.sockets)
  {
  }

  lemma NobodyUses(c: Config, base: VppState, s: State, side: bool)
    requires PoolsInOrder(c, base, s) && Backed(c, base, s, {side}) && NeverFails(c.d)
    requires side in s.m.sockets && s.m.sockets[side].isAdd
    ensures !Refuses(c, DeleteInterface(c, s, side).0.v.ifs, s.m.sockets[side].id)
  {
    var id, ifs := s.m.sockets[side].id, DeleteInterface(c, s, side).0.v.ifs;
    forall i | i in ifs
      ensures ifs[i] != MemifInterface(id)
    {
      if ifs[i] == MemifInterface(id) {
        OwnSocketOnly(c, base, s, side, i);
        assert false;
      }
    }
    hide PoolsInOrder, Backed;
  }

  lemma DroppedPools(c: Config, base: VppState, s: State, s': State)
    requires PoolsInOrder(c, base, s)
    requires s'.v.ifs == s.v.ifs && s'.v.peers == s.v.peers && s'.m.ifindex == s.m.ifindex && s'.m.peers == s.m.peers
    requires SocketsInOrder(c, base.sockets, s'.v.sockets, s'.m.sockets)
    ensures PoolsInOrder(c, base, s')
  {
    hide IfsInOrder, SocketsInOrder, Accounted;
  }

  /** With a side's interface and then its socket gone, the other side's record fits as before. */
  lemma DroppedBacked(c: Config, base: VppState, s: State, s1: State, s2: State, side: bool)
    requires Backed(c, base, s, {side}) && side in s.m.sockets && s.m.sockets[side].isAdd
    requires Elsewhere(s, s1, side) && s1.m.ifindex == s.m.ifindex - {side}
    requires s2.m.sockets == s.m.sockets[side := s.m.sockets[side].(isAdd := false)]
    requires s2.v.sockets == s.v.sockets - {s.m.sockets[side].id} && s2.m.ifindex == s1.m.ifindex && s2.v.ifs == s1.v.ifs
    ensures Backed(c, base, s2, {})
  {
    forall x | x in s2.m.sockets && !s2.m.sockets[x].isAdd && s2.m.sockets[x].id in s2.v.sockets
      ensures c.keepsUsed && MemifInterface(s2.m.sockets[x].id) in base.ifs.Values
    {
      assert !x == side && !TakenBy(s.m, side, s.m.sockets[x].id, {side});
    }
    OtherIndex(s.m.ifindex, s1.m.ifindex, side);
    forall x | x in s2.m.ifindex && c.conn(x).mechanism.MemifMech?
      ensures x == !side && x in s.m.ifindex && s2.m.ifindex[x] == s.m.ifindex[x]
    {
    }
  }

  /** Undoing again: there is no interface, and the old number is gone or VPP keeps the socket that has it now. */
  lemma DelStaleMemif(c: Config, base: VppState, s: State, side: bool)
    requires AlmostInOrder(c, base, s, {side}) && NeverFails(c.d) && c.conn(side).mechanism.MemifMech?
    requires side in s.m.sockets ==> !s.m.sockets[side].isAdd
    ensures InOrder(c, base, AfterDelMemif(c, s, side)) && MemifUndone(s, AfterDelMemif(c, s, side), side)
  {
    StaleUndoing(c, base, s, side);
    StaleIsUndone(s, side);
    hide PoolsInOrder, AfterDelMemif, KeysFit, LiveSockets;
    var s' := AfterDelMemif(c, s, side);
    SamePools(c, base, s, s');
    LooseNoMore(c, base, s, s', side);
  }

  lemma StaleIsUndone(s: State, side: bool)
    requires side !in s.m.ifindex && (side in s.m.sockets ==> !s.m.sockets[side].isAdd)
    ensures forall s': State :: s'.m == s.m ==> MemifUndone(s, s', side)
  {
    assert s.m.ifindex - {side} == s.m.ifindex;
    assert LiveSockets(s.m.sockets) - {side} == LiveSockets(s.m.sockets);
  }

  lemma StaleUndoing(c: Config, base: VppState, s: State, side: bool)
    requires AlmostInOrder(c, base, s, {side}) && NeverFails(c.d) && c.conn(side).mechanism.MemifMech?
    requires side in s.m.sockets ==> !s.m.sockets[side].isAdd
    ensures var s' := AfterDelMemif(c, s, side);
            s'.v == s.v && s'.m == s.m && side !in s.m.ifindex
  {
    assert side !in s.m.ifindex;
    hide KeysFit, DevicesFit, TunnelsFit, TunnelsDiffer;
    if side in s.m.sockets {
      var id := s.m.sockets[side].id;
      assert s.m.sockets[side := s.m.sockets[side].(isAdd := false)] == s.m.sockets;
      if id in s.v.sockets {
        StillUsed(c, base, s, side);
      } else {
        assert s.v.sockets - {id} == s.v.sockets;
      }
    }
  }

  lemma StillUsed(c: Config, base: VppState, s: State, side: bool)
    requires Backed(c, base, s, {side}) && side in s.m.sockets && !s.m.sockets[side].isAdd
    requires s.m.sockets[side].id in s.v.sockets && forall x :: x in s.m.sockets ==> c.conn(x).mechanism.MemifMech?
    requires Accounted(base.ifs, s.v.ifs, s.m.ifindex)
    ensures Refuses(c, s.v.ifs, s.m.sockets[side].id)
  {
    var device := MemifInterface(s.m.sockets[side].id);
    if TakenBy(s.m, !side, s.m.sockets[side].id, {side}) {
      assert s.v.ifs[s.m.ifindex[!side]] == device;
    } else {
      var i := KeyOfValue(base.ifs, device);
      assert s.v.ifs[i] == device;
    }
  }

  lemma LooseNoMore(c: Config, base: VppState, s: State, s': State, side: bool)
    requires Backed(c, base, s, {side}) && s'.v == s.v && s'.m == s.m
    requires side in s.m.sockets ==> !s.m.sockets[side].isAdd
    ensures Backed(c, base, s', {})
  {
    forall x, id | TakenBy(s.m, x, id, {side})
      ensures TakenBy(s'.m, x, id, {})
    {
    }
  }

  lemma DelMemifKeeps(c: Config, base: VppState, s: State, side: bool)
    requires AlmostInOrder(c, base, s, {side}) && NeverFails(c.d) && c.conn(side).mechanism.MemifMech?
    ensures InOrder(c, base, AfterDelMemif(c, s, side)) && MemifUndone(s, AfterDelMemif(c, s, side), side)
  {
    hide AfterDelMemif, AlmostInOrder, InOrder, MemifUndone;
    if side in s.m.sockets && s.m.sockets[side].isAdd {
      DelLiveMemif(c, base, s, side);
    } else {
      DelStaleMemif(c, base, s, side);
    }
  }

  lemma Loosen(c: Config, base: VppState, s: State, side: bool)
    requires InOrder(c, base, s)
    ensures AlmostInOrder(c, base, s, {side})
  {
    hide PoolsInOrder, KeysFit;
    assert forall x, id :: TakenBy(s.m, x, id, {}) ==> TakenBy(s.m, x, id, {side});
  }

  lemma AddSocketKeeps(c: Config, base: VppState, s: State, side: bool, filename: string)
    requires InOrder(c, base, s) && c.conn(side).mechanism.MemifMech? && side !in s.m.ifindex
    requires side !in LiveSockets(s.m.sockets) && OtherSideSafe(c, s.m.sockets, side)
    ensures var (s', ok) := AddSocket(c, s, side, filename);
            && (if ok then AlmostInOrder(c, base, s', {side}) else InOrder(c, base, s'))
            && s'.m == s.m.(sockets := s'.m.sockets)
            && SameOtherSide(s.m.sockets, s'.m.sockets, side)
            && (if ok then side in s'.m.sockets && s'.m.sockets[side].isAdd && s'.m.sockets.Keys == s.m.sockets.Keys + {side}
                else s'.m.sockets == s.m.sockets)
  {
    var (s', ok) := AddSocket(c, s, side, filename);
    if ok {
      var id := s'.m.sockets[side].id;
      assert id !in s.v.sockets;
      AddSocketSockets(c, base.sockets, s.v.sockets, s.m.sockets, side, id, filename);
      hide SocketsInOrder, FirstFree, KeysFit;
      DroppedPools(c, base, s, s');
      AddedBacked(c, base, s, s', side);
    } else {
      hide SocketsInOrder, FirstFree, KeysFit;
      SameInOrder(c, base, s, s');
    }
  }

  lemma AddedBacked(c: Config, base: VppState, s: State, s': State, side: bool)
    requires Backed(c, base, s, {}) && side !in s.m.ifindex && (side in s.m.sockets ==> !s.m.sockets[side].isAdd)
    requires OtherSideSafe(c, s.m.sockets, side)
    requires side in s'.m.sockets && s'.m.sockets[side].isAdd && s'.m.sockets == s.m.sockets[side := s'.m.sockets[side]]
    requires s'.v.sockets.Keys == s.v.sockets.Keys + {s'.m.sockets[side].id} && s'.v.ifs == s.v.ifs && s'.m.ifindex == s.m.ifindex
    ensures Backed(c, base, s', {side})
  {
    var id := s'.m.sockets[side].id;
    forall x | x in s'.m.sockets && !s'.m.sockets[x].isAdd && s'.m.sockets[x].id in s'.v.sockets
      ensures c.keepsUsed && (TakenBy(s'.m, !x, s'.m.sockets[x].id, {side}) || MemifInterface(s'.m.sockets[x].id) in base.ifs.Values)
    {
      assert x == !side && s'.m.sockets[x] == s.m.sockets[x];
      if s.m.sockets[x].id in s.v.sockets {
        assert !TakenBy(s.m, side, s.m.sockets[x].id, {});
      } else {
        assert s.m.sockets[x].id == id;
      }
    }
  }

  lemma MemifInterfaceBacked(c: Config, base: VppState, s: State, side: bool)
    requires AlmostInOrder(c, base, s, {side}) && c.conn(side).mechanism.MemifMech? && side !in s.m.ifindex
    requires side in s.m.sockets && s.m.sockets[side].isAdd
    ensures var (s', ok) := AddInterface(c, s, side, MemifInterface(s.m.sockets[side].id));
            s'.m.sockets == s.m.sockets && if ok then InOrder(c, base, s') else AlmostInOrder(c, base, s', {side})
  {
    var device := MemifInterface(s.m.sockets[side].id);
    hide PoolsInOrder, AddInterface, Backed, Elsewhere, KeysFit;
    AddInterfaceKeeps(c, base, s, side, device);
    AddedIff(c, s, side, device);
    NewDevice(c, s, side, device);
    MemifKeysFit(c, s.m.wgKeys, s.m.ifindex, side);
    var (s', ok) := AddInterface(c, s, side, device);
    if ok {
      NowBacked(c, base, s, s', side);
    } else {
      SameBacked(c, base, s, s', {side});
    }
  }

  lemma MemifKeysFit(c: Config, wgKeys: set<bool>, ifindex: map<bool, nat>, side: bool)
    requires KeysFit(c, wgKeys, ifindex) && c.conn(side).mechanism.MemifMech?
    ensures forall ifindex': map<bool, nat> ::
              ifindex'.Keys == ifindex.Keys || ifindex'.Keys == ifindex.Keys + {side} ==> KeysFit(c, wgKeys, ifindex')
  {
    forall ifindex': map<bool, nat> | ifindex'.Keys == ifindex.Keys || ifindex'.Keys == ifindex.Keys + {side}
      ensures KeysFit(c, wgKeys, ifindex')
    {
      forall x
        ensures x in wgKeys <==> x in ifindex' && c.conn(x).mechanism.WireguardMech?
      {
        assert x in ifindex' <==> x in ifindex'.Keys;
      }
    }
  }

  /** With its interface a side is no longer loose. */
  lemma NowBacked(c: Config, base: VppState, s: State, s': State, side: bool)
    requires Backed(c, base, s, {side}) && Elsewhere(s, s', side) && side in s.m.sockets && s.m.sockets[side].isAdd
    requires side in s'.m.ifindex && s'.m.ifindex[side] in s'.v.ifs
    requires s'.v.ifs[s'.m.ifindex[side]] == MemifInterface(s.m.sockets[side].id)
    ensures Backed(c, base, s', {})
  {
    OtherIndex(s.m.ifindex, s'.m.ifindex, side);
    forall x, id | TakenBy(s.m, x, id, {side})
      ensures TakenBy(s'.m, x, id, {})
    {
    }
  }

  lemma OtherIndex(ifindex: map<bool, nat>, ifindex': map<bool, nat>, side: bool)
    requires ifindex' - {side} == ifindex - {side}
    ensures !side in ifindex <==> !side in ifindex'
    ensures !side in ifindex ==> ifindex'[!side] == ifindex[!side]
  {
    assert !side in ifindex - {side} <==> !side in ifindex;
    assert !side in ifindex' - {side} <==> !side in ifindex';
    assert !side in ifindex ==> (ifindex - {side})[!side] == ifindex[!side] && (ifindex' - {side})[!side] == ifindex'[!side];
  }

  lemma NewDevice(c: Config, s: State, side: bool, device: Device)
    ensures var (s', ok) := AddInterface(c, s, side, device);
            ok ==> side in s'.m.ifindex && s'.m.ifindex[side] in s'.v.ifs && s'.v.ifs[s'.m.ifindex[side]] == device
  {
    hide FirstFree;
  }

  lemma NewMemifKeeps(c: Config, base: VppState, s: State, side: bool)
    requires InOrder(c, base, s) && c.conn(side).mechanism.MemifMech? && side !in s.m.ifindex
    requires side !in LiveSockets(s.m.sockets) && OtherSideSafe(c, s.m.sockets, side)
    ensures var (s', ok) := NewMemif(c, s, side);
            && (if ok then InOrder(c, base, s') else AlmostInOrder(c, base, s', {side}))
            && SameOtherSide(s.m.sockets, s'.m.sockets, side) && s'.m.sockets.Keys <= s.m.sockets.Keys + {side}
            && (ok ==> side in s'.m.sockets && s'.m.sockets[side].isAdd)
  {
    var filename := c.conn(side).mechanism.socketFilename;
    AddSocketKeeps(c, base, s, side, filename);
    hide AlmostInOrder, InOrder, AddSocket, AddInterface, LiveSockets, SameOtherSide, OtherSideSafe;
    var (s1, ok) := AddSocket(c, s, side, filename);
    if ok { MemifInterfaceBacked(c, base, s1, side); } else { Loosen(c, base, s1, side); }
  }

  lemma CreateMemifKeeps(c: Config, base: VppState, s: State, side: bool)
    requires InOrder(c, base, s) && NeverFails(c.d) && OtherSideSafe(c, s.m.sockets, side) && c.conn(side).mechanism.MemifMech?
    ensures var (s', ok) := AfterCreateMemif(c, s, side);
            && (if ok then InOrder(c, base, s') else AlmostInOrder(c, base, s', {side}))
            && SameOtherSide(s.m.sockets, s'.m.sockets, side) && s'.m.sockets.Keys <= s.m.sockets.Keys + {side}
            && (ok && (side in s.m.sockets ==> s.m.sockets[side].isAdd) && side in s'.m.sockets ==> s'.m.sockets[side].isAdd)
  {
    hide InOrder, AlmostInOrder, NewMemif, AfterDelMemif;
    SameInOrder(c, base, s, Called(s));
    var s1 := if side in s.m.ifindex then Called(s) else s;
    Loosen(c, base, s1, side);
    DelMemifKeeps(c, base, s1, side);
    NewMemifKeeps(c, base, AfterDelMemif(c, s1, side), side);
    hide LiveSockets;
  }

  // ---- Who is responsible for what ----

  /** Something the metadata hold. */
  datatype Thing = Interface(isClient: bool) | PeerOf(key: PeerKey) | SocketOf(isClient: bool)

  predicate Holds(m: Metadata, t: Thing) {
    match t
    case Interface(side) => side in m.ifindex
    case PeerOf(key) => key in m.peers
    case SocketOf(side) => side in LiveSockets(m.sockets)
  }

  /** What the element makes and undoes, given the connection it acts on. */
  predicate Minds(c: Config, e: Element, t: Thing) {
    var conn := c.conn(e.isClient);
    match e.kind
    case Wireguard => conn.payload == PayloadIP && conn.mechanism.WireguardMech? && t == Interface(e.isClient)
    case Peer => conn.mechanism.WireguardMech? && t == PeerOf(PeerKeyOf(c, e.isClient))
    case Vxlan => conn.payload == PayloadEthernet && conn.mechanism.VxlanMech? && t == Interface(e.isClient)
    case KernelTap => conn.mechanism.KernelMech? && t == Interface(e.isClient)
    case MemifElement => conn.mechanism.MemifMech? && (t == Interface(e.isClient) || t == SocketOf(e.isClient))
    case Other => false
  }

  ghost predicate MindsAny(c: Config, chain: seq<Element>, t: Thing) {
    exists i :: 0 <= i < |chain| && Minds(c, chain[i], t)
  }

  lemma MindsFirst(c: Config, chain: seq<Element>, t: Thing)
    requires chain != []
    ensures MindsAny(c, chain, t) <==> Minds(c, chain[0], t) || MindsAny(c, chain[1..], t)
  {
    hide Minds;
    if i :| 0 <= i < |chain| && Minds(c, chain[i], t) {
      assert i > 0 ==> chain[1..][i - 1] == chain[i];
    }
    if i :| 0 <= i < |chain[1..]| && Minds(c, chain[1..][i], t) {
      assert chain[i + 1] == chain[1..][i];
    }
  }

  /** Removes from the metadata exactly what the element minds. */
  ghost predicate Drops(c: Config, m: Metadata, m': Metadata, e: Element) {
    m'.sockets.Keys == m.sockets.Keys && forall t :: Holds(m', t) <==> Holds(m, t) && !Minds(c, e, t)
  }

  lemma DelMemifDrops(c: Config, base: VppState, s: State, e: Element)
    requires AlmostInOrder(c, base, s, {e.isClient}) && NeverFails(c.d) && e.kind == MemifElement
    requires c.conn(e.isClient).mechanism.MemifMech?
    ensures InOrder(c, base, AfterDel(c, s, e)) && Drops(c, s.m, AfterDel(c, s, e).m, e)
  {
    hide AlmostInOrder, InOrder, AfterDelMemif, LiveSockets;
    DelMemifKeeps(c, base, s, e.isClient);
  }

  /** An element's undoing removes exactly what it minds. */
  lemma DelKeeps(c: Config, base: VppState, s: State, e: Element)
    requires InOrder(c, base, s) && NeverFails(c.d)
    ensures InOrder(c, base, AfterDel(c, s, e)) && Drops(c, s.m, AfterDel(c, s, e).m, e)
  {
    var side := e.isClient;
    if e.kind == MemifElement && c.conn(side).mechanism.MemifMech? {
      Loosen(c, base, s, side);
      DelMemifDrops(c, base, s, e);
    } else {
      DelOtherKeeps(c, base, s, e);
    }
  }

  lemma DelOtherKeeps(c: Config, base: VppState, s: State, e: Element)
    requires InOrder(c, base, s) && NeverFails(c.d)
    requires e.kind == MemifElement ==> !c.conn(e.isClient).mechanism.MemifMech?
    ensures InOrder(c, base, AfterDel(c, s, e)) && Drops(c, s.m, AfterDel(c, s, e).m, e)
  {
    hide InOrder, AfterDelWireguard, AfterDelPeer, AfterDelVxlan, AfterDelTap, LiveSockets;
    match e.kind
    case Wireguard => DelWireguardKeeps(c, base, s, e.isClient);
    case Peer => DelPeerKeeps(c, base, s, e.isClient);
    case Vxlan => DelVxlanKeeps(c, base, s, e.isClient);
    case KernelTap => DelTapKeeps(c, base, s, e.isClient);
    case MemifElement => assert AfterDelMemif(c, s, e.isClient) == s;
    case Other =>
  }

  /** At most `extra` has come, and the sockets are as they were. */
  ghost predicate OnlyGains(m: Metadata, m': Metadata, extra: Thing) {
    m'.sockets == m.sockets && forall t :: Holds(m', t) ==> Holds(m, t) || t == extra
  }

  lemma AddInterfaceGains(c: Config, s: State, side: bool, device: Device)
    ensures OnlyGains(s.m, AddInterface(c, s, side, device).0.m, Interface(side))
  {
    hide FirstFree, LiveSockets;
  }

  lemma DelTapGains(c: Config, s: State, side: bool)
    ensures OnlyGains(s.m, AfterDelTap(c, s, side).m, Interface(side))
  {
    hide LiveSockets;
  }

  lemma CreateWireguardGains(c: Config, s: State, side: bool)
    ensures OnlyGains(s.m, AfterCreateWireguard(c, s, side).0.m, Interface(side))
    ensures !c.conn(side).mechanism.WireguardMech? ==> AfterCreateWireguard(c, s, side).0.m == s.m
  {
    hide AddInterface, LiveSockets;
    if c.conn(side).mechanism.WireguardMech? { AddInterfaceGains(c, s, side, WgInterfaceOf(c.conn(side).mechanism, side)); }
  }

  lemma CreatePeerGains(c: Config, s: State, side: bool)
    ensures if c.conn(side).mechanism.WireguardMech?
            then OnlyGains(s.m, AfterCreatePeer(c, s, side).0.m, PeerOf(PeerKeyOf(c, side)))
            else AfterCreatePeer(c, s, side).0.m == s.m
  {
    hide FirstFree, LiveSockets;
  }

  lemma AddVxlanGains(c: Config, s: State, side: bool)
    ensures OnlyGains(s.m, AfterAddVxlan(c, s, side).0.m, Interface(side))
    ensures !c.conn(side).mechanism.VxlanMech? ==> AfterAddVxlan(c, s, side).0.m == s.m
  {
    hide TunnelOf, AddInterface, LiveSockets;
    if c.conn(side).mechanism.VxlanMech? {
      AddInterfaceGains(c, Called(s), side, TunnelOf(c.conn(side).mechanism, side));
    }
  }

  lemma TryAllGains(c: Config, s: State, n: nat)
    ensures TryAll(c, s, n).0.m == s.m
    decreases n
  {
    if n > 0 { TryAllGains(c, Called(s), n - 1); }
  }

  lemma NewTapGains(c: Config, s: State, side: bool)
    requires c.conn(side).mechanism.KernelMech?
    ensures OnlyGains(s.m, NewTap(c, s, side).0.m, Interface(side))
  {
    hide TryAll, AddInterface, LiveSockets;
    var device := TapOf(c.conn(side));
    AddInterfaceGains(c, Called(s), side, device);
    TryAllGains(c, AddInterface(c, Called(s), side, device).0, 4);
  }

  lemma CreateTapGains(c: Config, s: State, side: bool)
    ensures OnlyGains(s.m, AfterCreateTap(c, s, side).0.m, Interface(side))
    ensures !c.conn(side).mechanism.KernelMech? ==> AfterCreateTap(c, s, side).0.m == s.m
  {
    hide NewTap, AfterDelTap, LiveSockets;
    if c.conn(side).mechanism.KernelMech? {
      var s1 := if side in s.m.ifindex then Called(Called(s)) else Called(s);
      DelTapGains(c, s1, side);
      NewTapGains(c, AfterDelTap(c, s1, side), side);
    }
  }

  ghost predicate OnlyGainsMemif(m: Metadata, m': Metadata, side: bool) {
    forall t :: Holds(m', t) ==> Holds(m, t) || t == Interface(side) || t == SocketOf(side)
  }

  lemma NewMemifGains(c: Config, s: State, side: bool)
    requires c.conn(side).mechanism.MemifMech?
    ensures OnlyGainsMemif(s.m, NewMemif(c, s, side).0.m, side)
  {
    hide AddInterface, FirstFree;
    var (s1, ok) := AddSocket(c, s, side, c.conn(side).mechanism.socketFilename);
    if ok { AddInterfaceGains(c, s1, side, MemifInterface(s1.m.sockets[side].id)); }
  }

  lemma CreateMemifGains(c: Config, base: VppState, s: State, side: bool)
    requires InOrder(c, base, s) && NeverFails(c.d)
    ensures OnlyGainsMemif(s.m, AfterCreateMemif(c, s, side).0.m, side)
    ensures !c.conn(side).mechanism.MemifMech? ==> AfterCreateMemif(c, s, side).0.m == s.m
  {
    hide NewMemif, AfterDelMemif, LiveSockets, InOrder, AlmostInOrder;
    if c.conn(side).mechanism.MemifMech? {
      var s1 := if side in s.m.ifindex then Called(s) else s;
      SameInOrder(c, base, s, s1);
      Loosen(c, base, s1, side);
      DelMemifKeeps(c, base, s1, side);
      NewMemifGains(c, AfterDelMemif(c, s1, side), side);
    }
  }

  /** An element's creation adds nothing but what it minds, even when it fails half way. */
  lemma CreateHolds(c: Config, base: VppState, s: State, e: Element)
    requires InOrder(c, base, s) && NeverFails(c.d)
    ensures forall t :: Holds(AfterCreate(c, s, e).0.m, t) ==> Holds(s.m, t) || Minds(c, e, t)
    ensures e.kind != MemifElement ==> AfterCreate(c, s, e).0.m.sockets == s.m.sockets
  {
    hide InOrder, AfterCreateWireguard, AfterCreatePeer, AfterAddVxlan, AfterCreateTap, AfterCreateMemif, Holds, PeerKeyOf;
    CreateWireguardGains(c, s, e.isClient);
    CreatePeerGains(c, s, e.isClient);
    AddVxlanGains(c, s, e.isClient);
    CreateTapGains(c, s, e.isClient);
    CreateMemifGains(c, base, s, e.isClient);
  }

  /** The sides on which the chain has an element that makes sockets. */
  function SocketSidesOf(c: Config, chain: seq<Element>): set<bool> {
    set e | e in chain && e.kind == MemifElement && c.conn(e.isClient).mechanism.MemifMech? :: e.isClient
  }

  /** Whether undone sockets can get in the way of new ones: not when VPP keeps what is used, not when only one side has
      sockets, and not while none has been undone. */
  predicate Undisturbed(c: Config, sides: set<bool>, sockets: map<bool, Socket>) {
    && sockets.Keys <= sides
    && (c.keepsUsed || !(true in sides && false in sides) || forall side :: side in sockets ==> sockets[side].isAdd)
  }

  lemma UndisturbedOtherSide(c: Config, sides: set<bool>, sockets: map<bool, Socket>, side: bool)
    requires Undisturbed(c, sides, sockets) && side in sides
    ensures OtherSideSafe(c, sockets, side)
  {
    if side {
      assert !side == false;
    } else {
      assert !side == true;
    }
  }

  lemma CreateMemifUndisturbed(c: Config, base: VppState, s: State, side: bool, sides: set<bool>)
    requires InOrder(c, base, s) && NeverFails(c.d) && Undisturbed(c, sides, s.m.sockets)
    requires side in sides && c.conn(side).mechanism.MemifMech?
    ensures var (s', ok) := AfterCreateMemif(c, s, side);
            && (if ok then InOrder(c, base, s') && Undisturbed(c, sides, s'.m.sockets) else AlmostInOrder(c, base, s', {side}))
            && s'.m.sockets.Keys <= sides
  {
    UndisturbedOtherSide(c, sides, s.m.sockets, side);
    hide InOrder, AlmostInOrder, AfterCreateMemif;
    CreateMemifKeeps(c, base, s, side);
    var (s', ok) := AfterCreateMemif(c, s, side);
    forall x | ok && x in s'.m.sockets
      ensures (x in s.m.sockets ==> s.m.sockets[x].isAdd) ==> s'.m.sockets[x].isAdd
    {
      assert x == side || x == !side;
    }
  }

  /** How an element may leave things: in order, or after a failure with a socket that has no interface yet. */
  ghost predicate CreatedOrAlmost(c: Config, base: VppState, s: State, e: Element, ok: bool) {
    || InOrder(c, base, s)
    || (!ok && e.kind == MemifElement && c.conn(e.isClient).mechanism.MemifMech? && AlmostInOrder(c, base, s, {e.isClient}))
  }

  lemma CreateKeeps(c: Config, base: VppState, s: State, e: Element, sides: set<bool>)
    requires InOrder(c, base, s) && NeverFails(c.d) && Undisturbed(c, sides, s.m.sockets) && SocketSidesOf(c, [e]) <= sides
    ensures var (s', ok) := AfterCreate(c, s, e);
            && CreatedOrAlmost(c, base, s', e, ok)
            && (ok ==> Undisturbed(c, sides, s'.m.sockets)) && s'.m.sockets.Keys <= sides
  {
    CreateHolds(c, base, s, e);
    SameInOrder(c, base, s, Called(s));
    if e.kind == MemifElement && c.conn(e.isClient).mechanism.MemifMech? {
      assert e in [e];
      assert e.isClient in SocketSidesOf(c, [e]);
      CreateMemifUndisturbed(c, base, s, e.isClient, sides);
    } else {
      hide InOrder, AlmostInOrder, AfterCreateWireguard, AfterCreatePeer, AfterAddVxlan, AfterCreateTap, Holds, Undisturbed, Minds;
      match e.kind
      case Wireguard => CreateWireguardKeeps(c, base, s, e.isClient);
      case Peer => CreatePeerKeeps(c, base, s, e.isClient);
      case Vxlan => AddVxlanKeeps(c, base, s, e.isClient);
      case KernelTap => CreateTapKeeps(c, base, s, e.isClient);
      case MemifElement => assert AfterCreateMemif(c, s, e.isClient) == (s, true);
      case Other =>
    }
  }

  // ---- Whole chains ----

  /** Removes from the metadata exactly what the elements of the chain mind. */
  ghost predicate DropsAll(c: Config, m: Metadata, m': Metadata, chain: seq<Element>) {
    m'.sockets.Keys == m.sockets.Keys && forall t :: Holds(m', t) <==> Holds(m, t) && !MindsAny(c, chain, t)
  }

  lemma DropsFirst(c: Config, m: Metadata, m1: Metadata, m2: Metadata, chain: seq<Element>)
    requires chain != [] && Drops(c, m, m1, chain[0]) && DropsAll(c, m1, m2, chain[1..])
    ensures DropsAll(c, m, m2, chain)
  {
    hide Holds, Minds;
    forall t
      ensures MindsAny(c, chain, t) <==> Minds(c, chain[0], t) || MindsAny(c, chain[1..], t)
    {
      MindsFirst(c, chain, t);
    }
    hide MindsAny;
  }

  /** Closing a chain drops exactly what its elements mind. */
  lemma {:induction false} CloseKeeps(c: Config, base: VppState, s: State, chain: seq<Element>)
    requires InOrder(c, base, s) && NeverFails(c.d)
    ensures InOrder(c, base, AfterClose(c, s, chain)) && DropsAll(c, s.m, AfterClose(c, s, chain).m, chain)
    decreases |chain|
  {
    hide InOrder, AfterDel, Holds, Minds, Drops;
    if chain != [] {
      DelKeeps(c, base, s, chain[0]);
      CloseKeeps(c, base, AfterDel(c, s, chain[0]), chain[1..]);
      DropsFirst(c, s.m, AfterDel(c, s, chain[0]).m, AfterClose(c, s, chain).m, chain);
      hide DropsAll;
    }
  }

  /** The close that follows a failed creation starts with the element that failed. */
  lemma CloseAfterFailure(c: Config, base: VppState, s: State, chain: seq<Element>)
    requires chain != [] && CreatedOrAlmost(c, base, s, chain[0], false) && NeverFails(c.d)
    ensures InOrder(c, base, AfterClose(c, s, chain)) && DropsAll(c, s.m, AfterClose(c, s, chain).m, chain)
  {
    hide InOrder, AlmostInOrder, AfterDel, DropsAll, Drops;
    if InOrder(c, base, s) {
      CloseKeeps(c, base, s, chain);
    } else {
      DelMemifDrops(c, base, s, chain[0]);
      CloseKeeps(c, base, AfterDel(c, s, chain[0]), chain[1..]);
      DropsFirst(c, s.m, AfterDel(c, s, chain[0]).m, AfterClose(c, s, chain).m, chain);
    }
  }

  lemma SocketSidesFirst(c: Config, chain: seq<Element>)
    requires chain != []
    ensures SocketSidesOf(c, chain) == SocketSidesOf(c, [chain[0]]) + SocketSidesOf(c, chain[1..])
  {
    assert chain == [chain[0]] + chain[1..];
  }

  /** What a request leaves in the metadata: nothing that was not there, but what the chain minds after a success. */
  ghost predicate OnlyMinded(c: Config, m: Metadata, m': Metadata, chain: seq<Element>, ok: bool) {
    forall t :: Holds(m', t) ==> Holds(m, t) || (ok && MindsAny(c, chain, t))
  }

  lemma OneMoreMinded(c: Config, m: Metadata, m1: Metadata, m2: Metadata, chain: seq<Element>)
    requires chain != [] && OnlyMinded(c, m, m1, chain[1..], true)
    requires forall t :: Holds(m2, t) ==> Holds(m1, t) || Minds(c, chain[0], t)
    ensures OnlyMinded(c, m, m2, chain, true)
    ensures forall m3 :: DropsAll(c, m2, m3, chain) ==> OnlyMinded(c, m, m3, chain, false)
  {
    hide Holds, Minds;
    forall t
      ensures MindsAny(c, chain, t) <==> Minds(c, chain[0], t) || MindsAny(c, chain[1..], t)
    {
      MindsFirst(c, chain, t);
    }
    hide MindsAny;
  }

  /** A request leaves VPP with what was there and what the metadata hold. If it succeeds the metadata may hold more of
      what the chain minds; if it fails, at any call of any element, they hold nothing that they did not hold before. */
  lemma {:induction false} RequestKeeps(c: Config, base: VppState, s: State, chain: seq<Element>, sides: set<bool>)
    requires InOrder(c, base, s) && NeverFails(c.d) && Undisturbed(c, sides, s.m.sockets) && SocketSidesOf(c, chain) <= sides
    ensures var (s', ok) := AfterRequest(c, s, chain);
            && InOrder(c, base, s') && OnlyMinded(c, s.m, s'.m, chain, ok)
            && (ok ==> Undisturbed(c, sides, s'.m.sockets)) && s'.m.sockets.Keys <= sides
    decreases |chain|
  {
    if chain == [] {
      SameInOrder(c, base, s, Called(s));
      return;
    }
    SocketSidesFirst(c, chain);
    RequestKeeps(c, base, s, chain[1..], sides);
    var (s1, ok1) := AfterRequest(c, s, chain[1..]);
    hide InOrder, AlmostInOrder, AfterCreate, Holds, Minds, AfterClose, Undisturbed, SocketSidesOf, CreatedOrAlmost;
    if ok1 {
      CreateKeeps(c, base, s1, chain[0], sides);
      assert InOrder(c, base, s1);
      CreateHolds(c, base, s1, chain[0]);
      var (s2, ok2) := AfterCreate(c, s1, chain[0]);
      OneMoreMinded(c, s.m, s1.m, s2.m, chain);
      if ok2 {
        CreatedInOrder(c, base, s2, chain[0]);
      } else {
        CloseAfterFailure(c, base, s2, chain);
        assert DropsAll(c, s2.m, AfterClose(c, s2, chain).m, chain);
      }
    }
  }

  lemma CreatedInOrder(c: Config, base: VppState, s: State, e: Element)
    requires CreatedOrAlmost(c, base, s, e, true)
    ensures InOrder(c, base, s)
  {
  }

  lemma NothingLeft(c: Config, base: VppState, s: State)
    requires InOrder(c, base, s) && forall t :: !Holds(s.m, t)
    ensures s.v == base
  {
    forall side
      ensures side !in s.m.ifindex && side !in LiveSockets(s.m.sockets)
    {
      assert !Holds(s.m, Interface(side)) && !Holds(s.m, SocketOf(side));
    }
    forall key
      ensures key !in s.m.peers
    {
      assert !Holds(s.m, PeerOf(key));
    }
    hide Holds, LiveSockets;
    assert s.m.ifindex == map[] && s.m.peers == map[] && LiveSockets(s.m.sockets) == map[];
    NothingHeld(base.ifs, s.v.ifs, s.m.ifindex);
    NothingHeld(base.peers, s.v.peers, s.m.peers);
    NothingHeld(base.sockets, s.v.sockets, LiveSockets(s.m.sockets));
  }

  /** A new connection. */
  ghost predicate Fresh(s: State) {
    s.m == NO_METADATA && TunnelsDiffer(s.v.ifs) && MemifsFit(s.v)
  }

  lemma FreshInOrder(c: Config, s: State)
    requires Fresh(s)
    ensures InOrder(c, s.v, s) && forall t :: !Holds(s.m, t)
    ensures forall sides :: Undisturbed(c, sides, s.m.sockets)
  {
    assert LiveSockets(map[]) == map[];
  }

  /** A failed first request, whichever elements the chain has and wherever it fails, leaves VPP as it was; and a
      successful one does after a close. */
  lemma FirstRequestIsUndone(c: Config, s: State, chain: seq<Element>)
    requires Fresh(s) && NeverFails(c.d)
    ensures var (s', ok) := AfterRequest(c, s, chain);
            if ok then AfterClose(c, s', chain).v == s.v else s'.v == s.v
  {
    FreshInOrder(c, s);
    assert SocketSidesOf(c, chain) <= {true, false};
    RequestKeeps(c, s.v, s, chain, {true, false});
    hide InOrder, Fresh, Holds, Minds, MindsAny, Undisturbed, AfterRequest, AfterClose, SocketSidesOf;
    var (s', ok) := AfterRequest(c, s, chain);
    if ok {
      CloseKeeps(c, s.v, s', chain);
      NothingLeft(c, s.v, AfterClose(c, s', chain));
    } else {
      NothingLeft(c, s.v, s');
    }
  }

  // ---- The program ----

  class Conn {
    const o: Oracle
    const d: Oracle
    const keepsUsed: bool
    var ifs: map<nat, Device>
    var peers: map<nat, WgPeer>
    var sockets: map<nat, string>
    var calls: nat
    var undos: nat

    constructor (o: Oracle, d: Oracle, keepsUsed: bool)
      ensures this.o == o && this.d == d && this.keepsUsed == keepsUsed && ifs == map[] && peers == map[] && sockets == map[] && calls == 0 && undos == 0
    {
      this.o, this.d, this.keepsUsed := o, d, keepsUsed;
      ifs, peers, sockets := map[], map[], map[];
      calls, undos := 0, 0;
    }

    method Call() returns (r: Reply)
      modifies this`calls
      ensures r == o(old(calls)) && calls == old(calls) + 1
    {
      r := o(calls);
      calls := calls + 1;
    }

    method Undo() returns (ok: bool)
      modifies this`undos
      ensures ok == d(old(undos)).ok && undos == old(undos) + 1
    {
      ok := d(undos).ok;
      undos := undos + 1;
    }
  }

  /** The metadata of a connection and the chain elements that work on it. */
  class Chain {
    const vpp: Conn
    const conn: bool -> Connection
    const isKey: string -> bool
    const elements: seq<Element>
    var ifindex: map<bool, nat>
    var wgKeys: set<bool>
    var peers: map<PeerKey, nat>
    var sockets: map<bool, Socket>

    ghost function St(): State
      reads this, vpp
    {
      State(VppState(vpp.ifs, vpp.peers, vpp.sockets), Metadata(ifindex, wgKeys, peers, sockets), vpp.calls, vpp.undos)
    }

    ghost function C(): Config {
      Config(vpp.o, vpp.d, conn, isKey, vpp.keepsUsed)
    }

    constructor (vpp: Conn, conn: bool -> Connection, isKey: string -> bool, elements: seq<Element>)
      ensures this.vpp == vpp && this.conn == conn && this.isKey == isKey && this.elements == elements
      ensures St().m == NO_METADATA
    {
      this.vpp, this.conn, this.isKey, this.elements := vpp, conn, isKey, elements;
      ifindex, wgKeys, peers, sockets := map[], {}, map[], map[];
    }

    method Attempt() returns (ok: bool)
      modifies vpp
      ensures (St(), ok) == Try(C(), old(St()))
    {
      var r := vpp.Call();
      ok := r.ok;
    }

    method CreateDevice(isClient: bool, device: Device) returns (ok: bool)
      modifies this, vpp
      ensures (St(), ok) == AddInterface(C(), old(St()), isClient, device)
    {
      hide FirstFree;
      var r := vpp.Call();
      ok := r.ok;
      if ok {
        var i := Allocate(vpp.ifs.Keys, r.hint);
        vpp.ifs := vpp.ifs[i := device];
        ifindex := ifindex[isClient := i];
      }
    }

    method DeleteDevice(isClient: bool) returns (ok: bool)
      modifies this, vpp
      ensures (St(), ok) == DeleteInterface(C(), old(St()), isClient)
    {
      if isClient !in ifindex { return true; }
      var i := ifindex[isClient];
      ifindex := ifindex - {isClient};
      ok := vpp.Undo();
      if ok { vpp.ifs := vpp.ifs - {i}; }
    }

    method CreateWireguard(isClient: bool) returns (ok: bool)
      modifies this, vpp
      ensures (St(), ok) == AfterCreateWireguard(C(), old(St()), isClient)
    {
      hide AddInterface;
      var mechanism := conn(isClient).mechanism;
      if !mechanism.WireguardMech? || isClient in wgKeys { return true; }
      var wgIf := WgInterface(ToVppAddress(mechanism.srcIP), mechanism.srcPort);
      if !isClient { wgIf := WgInterface(ToVppAddress(mechanism.dstIP), mechanism.dstPort); }
      ok := CreateDevice(isClient, wgIf);
      if ok { wgKeys := wgKeys + {isClient}; }
    }

    method DelWireguard(isClient: bool)
      modifies this, vpp
      ensures St() == AfterDelWireguard(C(), old(St()), isClient)
    {
      hide DeleteInterface;
      if conn(isClient).mechanism.WireguardMech? && isClient in wgKeys {
        wgKeys := wgKeys - {isClient};
        // an error is dropped
        var _ := DeleteDevice(isClient);
      }
    }

    method CreatePeer(isClient: bool) returns (ok: bool)
      modifies this, vpp
      ensures (St(), ok) == AfterCreatePeer(C(), old(St()), isClient)
    {
      hide FirstFree;
      var mechanism := conn(isClient).mechanism;
      if !mechanism.WireguardMech? { return true; }
      var pubKey := GetKey(mechanism, isClient);
      if PeerKey(isClient, pubKey) in peers || isClient !in ifindex { return true; }
      if !isKey(pubKey) { return false; }
      var r := vpp.Call();
      ok := r.ok;
      if ok {
        var i := Allocate(vpp.peers.Keys, r.hint);
        var peer := WgPeer(ifindex[isClient], pubKey, ToVppAddress(mechanism.dstIP), mechanism.dstPort);
        if !isClient { peer := peer.(endpoint := ToVppAddress(mechanism.srcIP), port := mechanism.srcPort); }
        vpp.peers := vpp.peers[i := peer];
        peers := peers[PeerKey(isClient, pubKey) := i];
      }
    }

    method DelPeer(isClient: bool)
      modifies this, vpp
      ensures St() == AfterDelPeer(C(), old(St()), isClient)
    {
      var mechanism := conn(isClient).mechanism;
      if !mechanism.WireguardMech? { return; }
      var key := PeerKey(isClient, GetKey(mechanism, isClient));
      if key !in peers { return; }
      var i := peers[key];
      peers := peers - {key};
      var ok := vpp.Undo();
      if ok { vpp.peers := vpp.peers - {i}; }
    }

    /** `addDel`, for both directions. */
    method AddDelVxlan(isAdd: bool, isClient: bool) returns (ok: bool)
      modifies this, vpp
      ensures (St(), ok) == if isAdd then AfterAddVxlan(C(), old(St()), isClient) else AfterDelVxlan(C(), old(St()), isClient)
    {
      hide FirstFree, ToVppAddress;
      var mechanism := conn(isClient).mechanism;
      if !mechanism.VxlanMech? { return true; }
      if isAdd && isClient in ifindex { return true; }
      if !isAdd && isClient !in ifindex { return true; }
      if mechanism.srcIP == [] { return false; }
      if mechanism.dstIP == [] { return false; }
      var port := if isClient then mechanism.srcPort else mechanism.dstPort;
      var tunnel := Tunnel(ToVppAddress(mechanism.srcIP), ToVppAddress(mechanism.dstIP), port, mechanism.vni);
      if !isClient { tunnel := tunnel.(src := ToVppAddress(mechanism.dstIP), dst := ToVppAddress(mechanism.srcIP)); }
      if isAdd {
        ok := Attempt();
        if !ok { return; }
        if tunnel in vpp.ifs.Values {
          var _ := vpp.Call();
          return false;
        }
        ok := CreateDevice(isClient, tunnel);
      } else {
        ok := vpp.Undo();
        if !ok { return; }
        ok := vpp.Undo();
        // VPP has no tunnel to delete
        ok := ok && tunnel in vpp.ifs.Values;
        if !ok { return; }
        vpp.ifs := Without(vpp.ifs, tunnel);
        ifindex := ifindex - {isClient};
      }
    }

    method CreateTap(isClient: bool) returns (ok: bool)
      modifies this, vpp
      ensures (St(), ok) == AfterCreateTap(C(), old(St()), isClient)
    {
      hide NewTap, AfterDelTap;
      if !conn(isClient).mechanism.KernelMech? { return true; }
      ok := Attempt();
      if !ok { return; }
      if isClient in ifindex {
        ok := Attempt();
        if ok { return; }
      }
      DelTap(isClient);
      ok := CreateNewTap(isClient);
    }

    /** The second half of `create`. */
    method CreateNewTap(isClient: bool) returns (ok: bool)
      requires conn(isClient).mechanism.KernelMech?
      modifies this, vpp
      ensures (St(), ok) == NewTap(C(), old(St()), isClient)
    {
      hide AddInterface, TryAll;
      ok := Attempt();
      if !ok { return; }
      var tap := Tap(conn(isClient).mechanism.interfaceName, true);
      if conn(isClient).payload == PayloadEthernet { tap := tap.(tun := false); }
      ok := CreateDevice(isClient, tap);
      if !ok { return; }
      ok := SetUpLink();
    }

    /** The receive mode, then finding the link, its alias, and putting it up. */
    method SetUpLink() returns (ok: bool)
      modifies vpp
      ensures (St(), ok) == TryAll(C(), old(St()), 4)
    {
      ok := Attempt();
      if !ok { return; }
      ok := Attempt();
      if !ok { return; }
      ok := Attempt();
      if !ok { return; }
      ok := Attempt();
    }

    method DelTap(isClient: bool)
      modifies this, vpp
      ensures St() == AfterDelTap(C(), old(St()), isClient)
    {
      hide DeleteInterface;
      if conn(isClient).mechanism.KernelMech? {
        var _ := DeleteDevice(isClient);
      }
    }

    method CreateMemif(isClient: bool) returns (ok: bool)
      modifies this, vpp
      ensures (St(), ok) == AfterCreateMemif(C(), old(St()), isClient)
    {
      hide NewMemif, AfterDelMemif;
      var mechanism := conn(isClient).mechanism;
      if !mechanism.MemifMech? { return true; }
      if isClient in ifindex {
        ok := Attempt();
        if !ok { return; }
        if isClient in sockets && sockets[isClient].filename == mechanism.socketFilename { return true; }
      }
      DelMemif(isClient);
      ok := CreateNewMemif(isClient);
    }

    method CreateNewMemif(isClient: bool) returns (ok: bool)
      requires conn(isClient).mechanism.MemifMech?
      modifies this, vpp
      ensures (St(), ok) == NewMemif(C(), old(St()), isClient)
    {
      hide AddInterface, AddSocket;
      ok := CreateMemifSocket(isClient, conn(isClient).mechanism.socketFilename);
      if !ok { return; }
      ok := CreateDevice(isClient, MemifInterface(sockets[isClient].id));
    }

    method CreateMemifSocket(isClient: bool, filename: string) returns (ok: bool)
      modifies this, vpp
      ensures ok ==> isClient in sockets
      ensures (St(), ok) == AddSocket(C(), old(St()), isClient, filename)
    {
      hide FirstFree;
      ok := Attempt();
      if !ok { return; }
      var r := vpp.Call();
      ok := r.ok;
      if ok {
        var id := Allocate(vpp.sockets.Keys, r.hint);
        vpp.sockets := vpp.sockets[id := filename];
        sockets := sockets[isClient := Socket(true, id, filename)];
      }
    }

    method DeleteMemifSocket(isClient: bool)
      modifies this, vpp
      ensures St() == DeleteSocket(C(), old(St()), isClient)
    {
      if isClient !in sockets { return; }
      var socket := sockets[isClient];
      sockets := sockets[isClient := socket.(isAdd := false)];
      var ok := vpp.Undo();
      if ok && !(vpp.keepsUsed && MemifInterface(socket.id) in vpp.ifs.Values) { vpp.sockets := vpp.sockets - {socket.id}; }
    }

    method DelMemif(isClient: bool)
      modifies this, vpp
      ensures St() == AfterDelMemif(C(), old(St()), isClient)
    {
      hide DeleteInterface, DeleteSocket;
      if !conn(isClient).mechanism.MemifMech? { return; }
      var ok := DeleteDevice(isClient);
      if ok { DeleteMemifSocket(isClient); }
    }

    method Create(e: Element) returns (ok: bool)
      modifies this, vpp
      ensures (St(), ok) == AfterCreate(C(), old(St()), e)
    {
      hide AfterCreateWireguard, AfterCreatePeer, AfterAddVxlan, AfterCreateTap, AfterCreateMemif;
      ok := true;
      match e.kind {
        case Wireguard => if conn(e.isClient).payload == PayloadIP { ok := CreateWireguard(e.isClient); }
        case Peer => ok := CreatePeer(e.isClient);
        case Vxlan => if conn(e.isClient).payload == PayloadEthernet { ok := AddDelVxlan(true, e.isClient); }
        case KernelTap => ok := CreateTap(e.isClient);
        case MemifElement => ok := CreateMemif(e.isClient);
        case Other => ok := Attempt();
      }
    }

    method Del(e: Element)
      modifies this, vpp
      ensures St() == AfterDel(C(), old(St()), e)
    {
      hide AfterDelWireguard, AfterDelPeer, AfterDelVxlan, AfterDelTap, AfterDelMemif;
      match e.kind {
        case Wireguard => if conn(e.isClient).payload == PayloadIP { DelWireguard(e.isClient); }
        case Peer => DelPeer(e.isClient);
        case Vxlan =>
          if conn(e.isClient).payload == PayloadEthernet {
            // an error is only logged
            var _ := AddDelVxlan(false, e.isClient);
          }
        case KernelTap => DelTap(e.isClient);
        case MemifElement => DelMemif(e.isClient);
        case Other =>
      }
    }

    /** `Close` of element `i`, which ends in the `Close` of the next. */
    method Close(i: nat)
      requires i <= |elements|
      modifies this, vpp
      ensures St() == AfterClose(C(), old(St()), elements[i..])
      decreases |elements| - i
    {
      hide AfterDel;
      if i < |elements| {
        assert elements[i..][0] == elements[i] && elements[i..][1..] == elements[i + 1..];
        Del(elements[i]);
        Close(i + 1);
      }
    }

    /** `Request` of element `i`: the next element first, then this one's own part, undone on failure. */
    method Request(i: nat) returns (ok: bool)
      requires i <= |elements|
      modifies this, vpp
      ensures (St(), ok) == AfterRequest(C(), old(St()), elements[i..])
      decreases |elements| - i
    {
      hide AfterCreate, AfterClose, Try;
      if i == |elements| {
        ok := Attempt();
        return;
      }
      assert elements[i..][0] == elements[i] && elements[i..][1..] == elements[i + 1..];
      ok := Request(i + 1);
      if !ok { return; }
      ok := Create(elements[i]);
      if !ok { Close(i); }
    }
  }
}
