/** When two sides make sockets and VPP deletes sockets that are in use, some run takes a socket from under its memif:
    the record of an undone socket outlives it, and its number may have been given out again. */
module MechanismCollision {
  import opened Wrappers
  import opened Vpp
  import opened MechanismChain
  import opened MechanismWorld

  /** An element that makes sockets. */
  predicate Maker(c: Config, e: Element) {
    e.kind == MemifElement && c.conn(e.isClient).mechanism.MemifMech?
  }

  function FileOf(c: Config, side: bool): string {
    if c.conn(side).mechanism.MemifMech? then c.conn(side).mechanism.socketFilename else ""
  }

  /** The side of the innermost maker, whose socket is made first. */
  function First(c: Config, chain: seq<Element>): Option<bool> {
    if chain == [] then None
    else if First(c, chain[1..]).Some? then First(c, chain[1..])
    else if Maker(c, chain[0]) then Some(chain[0].isClient) else None
  }

  /** Whether there is a maker of the other side as well. */
  predicate Both(c: Config, chain: seq<Element>) {
    chain != [] &&
    (Both(c, chain[1..]) || (First(c, chain[1..]).Some? && Maker(c, chain[0]) && chain[0].isClient != First(c, chain[1..]).value))
  }

  lemma {:induction false} BothHasFirst(c: Config, chain: seq<Element>)
    requires Both(c, chain)
    ensures First(c, chain).Some?
  {
    if Both(c, chain[1..]) { BothHasFirst(c, chain[1..]); }
  }

  lemma {:induction false} SidesAre(c: Config, chain: seq<Element>)
    ensures SocketSidesOf(c, chain) ==
            match First(c, chain) { case None => {} case Some(x) => if Both(c, chain) then {x, !x} else {x} }
  {
    if chain != [] {
      SidesAre(c, chain[1..]);
      SocketSidesFirst(c, chain);
      OneSide(c, chain[0]);
      hide SocketSidesOf, Maker;
      if Both(c, chain[1..]) { BothHasFirst(c, chain[1..]); }
    }
  }

  lemma OneSide(c: Config, e: Element)
    ensures SocketSidesOf(c, [e]) == if Maker(c, e) then {e.isClient} else {}
  {
    assert e in [e];
  }

  lemma SidesAreMemif(c: Config, chain: seq<Element>)
    ensures forall x :: x in SocketSidesOf(c, chain) ==> c.conn(x).mechanism.MemifMech?
  {
  }

  // ---- Requests that succeed ----

  /** A connection that has what its mechanisms need: addresses, keys, and different tunnels for its two sides. */
  ghost predicate Equipped(c: Config) {
    && (forall side :: c.conn(side).mechanism.VxlanMech? ==> c.conn(side).mechanism.srcIP != [] && c.conn(side).mechanism.dstIP != [])
    && (forall side :: c.conn(side).mechanism.WireguardMech? ==> c.isKey(GetKey(c.conn(side).mechanism, side)))
    && (c.conn(true).mechanism.VxlanMech? && c.conn(false).mechanism.VxlanMech? ==>
          TunnelOf(c.conn(true).mechanism, true) != TunnelOf(c.conn(false).mechanism, false))
  }

  /** A side's tunnel is its own or not there. */
  ghost predicate Free(c: Config, s: State) {
    forall side :: c.conn(side).mechanism.VxlanMech? && side !in s.m.ifindex ==>
      TunnelOf(c.conn(side).mechanism, side) !in s.v.ifs.Values
  }

  /** VPP answers all calls from one on, with one hint. */
  ghost predicate Answers(o: Oracle, from: nat, hint: nat) {
    forall i: nat :: i >= from ==> o(i) == Reply(true, hint)
  }

  lemma AddFree(c: Config, s: State, side: bool, device: Device)
    requires Free(c, s) && c.o(s.calls).ok
    requires var m := c.conn(side).mechanism; if m.VxlanMech? then device == TunnelOf(m, side) else !device.Tunnel?
    requires Equipped(c)
    ensures AddInterface(c, s, side, device).1 && Free(c, AddInterface(c, s, side, device).0)
    ensures AddInterface(c, s, side, device).0.calls == s.calls + 1
  {
    TunnelsAre(c);
    hide FirstFree, TunnelOf;
    var i := Allocate(s.v.ifs.Keys, c.o(s.calls).hint);
    assert forall d :: d in s.v.ifs[i := device].Values ==> d == device || d in s.v.ifs.Values;
  }

  lemma TunnelsAre(c: Config)
    ensures forall side :: c.conn(side).mechanism.VxlanMech? ==> TunnelOf(c.conn(side).mechanism, side).Tunnel?
  {
  }

  lemma SameFree(c: Config, s: State, s': State)
    requires Free(c, s) && s'.v.ifs == s.v.ifs && s'.m.ifindex == s.m.ifindex
    ensures Free(c, s')
  {
    hide TunnelOf;
  }

  /** A step that succeeds and has nothing to do with sockets. */
  ghost predicate Local(c: Config, s: State, s': State, ok: bool) {
    && ok && Free(c, s') && s'.calls >= s.calls
    && s'.v.sockets == s.v.sockets && s'.m.sockets == s.m.sockets
    && forall x :: c.conn(x).mechanism.MemifMech? ==> (x in s'.m.ifindex <==> x in s.m.ifindex)
  }

  lemma AddLocal(c: Config, s: State, side: bool, device: Device)
    requires Equipped(c) && Free(c, s) && c.o(s.calls).ok && !c.conn(side).mechanism.MemifMech?
    requires var m := c.conn(side).mechanism; if m.VxlanMech? then device == TunnelOf(m, side) else !device.Tunnel?
    ensures var (s', ok) := AddInterface(c, s, side, device); Local(c, s, s', ok)
  {
    AddFree(c, s, side, device);
    hide FirstFree, Free, TunnelOf;
  }

  lemma LocalOn(c: Config, s: State, s1: State, s2: State)
    requires Local(c, s, s1, true) && s1.v.ifs == s2.v.ifs && s1.v.sockets == s2.v.sockets && s2.calls >= s1.calls
    requires s1.m.ifindex == s2.m.ifindex && s1.m.sockets == s2.m.sockets
    ensures Local(c, s, s2, true)
  {
    SameFree(c, s1, s2);
    hide Free;
  }

  lemma LocalAfter(c: Config, s: State, s1: State, s2: State)
    requires s1.v == s.v && s1.m == s.m && s1.calls >= s.calls && Local(c, s1, s2, true)
    ensures Local(c, s, s2, true)
  {
    hide Free;
  }

  lemma SameLocal(c: Config, s: State, s': State)
    requires Free(c, s) && s'.v == s.v && s'.m == s.m && s'.calls >= s.calls
    ensures Local(c, s, s', true)
  {
    SameFree(c, s, s');
    hide Free;
  }

  lemma WireguardLocal(c: Config, s: State, side: bool, h: nat)
    requires Equipped(c) && Free(c, s) && Answers(c.o, s.calls, h)
    ensures var (s', ok) := AfterCreateWireguard(c, s, side); Local(c, s, s', ok)
  {
    assert c.o(s.calls) == Reply(true, h);
    hide AddInterface, Local, Equipped, Free;
    if c.conn(side).mechanism.WireguardMech? && side !in s.m.wgKeys {
      var device := WgInterfaceOf(c.conn(side).mechanism, side);
      AddLocal(c, s, side, device);
      AddedIff(c, s, side, device);
      LocalIsOk(c, s, AddInterface(c, s, side, device).0, AddInterface(c, s, side, device).1);
      LocalOn(c, s, AddInterface(c, s, side, device).0, AfterCreateWireguard(c, s, side).0);
    } else {
      SameLocal(c, s, s);
    }
  }

  lemma LocalIsOk(c: Config, s: State, s': State, ok: bool)
    requires Local(c, s, s', ok)
    ensures ok && Free(c, s') && s'.calls >= s.calls
  {
  }

  lemma PeerLocal(c: Config, s: State, side: bool, h: nat)
    requires Equipped(c) && Free(c, s) && Answers(c.o, s.calls, h)
    ensures var (s', ok) := AfterCreatePeer(c, s, side); Local(c, s, s', ok)
  {
    assert c.o(s.calls) == Reply(true, h);
    assert c.conn(side).mechanism.WireguardMech? ==> c.isKey(GetKey(c.conn(side).mechanism, side));
    PeersOnly(c, s, side);
    hide FirstFree, Free, Equipped;
    SameFree(c, s, AfterCreatePeer(c, s, side).0);
  }

  lemma VxlanLocal(c: Config, s: State, side: bool, h: nat)
    requires Equipped(c) && Free(c, s) && Answers(c.o, s.calls, h)
    ensures var (s', ok) := AfterAddVxlan(c, s, side); Local(c, s, s', ok)
  {
    assert c.o(s.calls) == Reply(true, h) && c.o(s.calls + 1) == Reply(true, h);
    var m := c.conn(side).mechanism;
    assert m.VxlanMech? ==> m.srcIP != [] && m.dstIP != [];
    if m.VxlanMech? && side !in s.m.ifindex {
      assert TunnelOf(m, side) !in s.v.ifs.Values;
      hide AddInterface, Local, Equipped, Free, TunnelOf;
      SameFree(c, s, Called(s));
      AddLocal(c, Called(s), side, TunnelOf(m, side));
      LocalIsOk(c, Called(s), AddInterface(c, Called(s), side, TunnelOf(m, side)).0, AddInterface(c, Called(s), side, TunnelOf(m, side)).1);
      LocalAfter(c, s, Called(s), AddInterface(c, Called(s), side, TunnelOf(m, side)).0);
    } else {
      SameLocal(c, s, s);
    }
  }

  lemma {:induction false} TryAllLocal(c: Config, s: State, n: nat, h: nat)
    requires Answers(c.o, s.calls, h)
    ensures var (s', ok) := TryAll(c, s, n); ok && s' == s.(calls := s.calls + n)
    decreases n
  {
    assert c.o(s.calls) == Reply(true, h);
    if n > 0 { TryAllLocal(c, Called(s), n - 1, h); }
  }

  lemma TapLocal(c: Config, s: State, side: bool, h: nat)
    requires Equipped(c) && Free(c, s) && Answers(c.o, s.calls, h)
    ensures var (s', ok) := AfterCreateTap(c, s, side); Local(c, s, s', ok)
  {
    assert c.o(s.calls) == Reply(true, h) && c.o(s.calls + 1) == Reply(true, h);
    hide Local, Equipped, Free, NewTap;
    if c.conn(side).mechanism.KernelMech? && side !in s.m.ifindex {
      SameFree(c, s, Called(s));
      NewTapLocal(c, Called(s), side, h);
      LocalIsOk(c, Called(s), NewTap(c, Called(s), side).0, NewTap(c, Called(s), side).1);
      LocalAfter(c, s, Called(s), NewTap(c, Called(s), side).0);
    } else {
      SameLocal(c, s, AfterCreateTap(c, s, side).0);
    }
  }

  lemma NewTapLocal(c: Config, s: State, side: bool, h: nat)
    requires Equipped(c) && Free(c, s) && Answers(c.o, s.calls, h) && c.conn(side).mechanism.KernelMech?
    ensures var (s', ok) := NewTap(c, s, side); Local(c, s, s', ok)
  {
    assert c.o(s.calls) == Reply(true, h) && c.o(s.calls + 1) == Reply(true, h);
    var device := TapOf(c.conn(side));
    assert !device.Tunnel?;
    hide Local, Equipped, Free, AddInterface, TryAll;
    SameFree(c, s, Called(s));
    AddLocal(c, Called(s), side, device);
    var (s2, ok) := AddInterface(c, Called(s), side, device);
    LocalIsOk(c, Called(s), s2, ok);
    TryAllLocal(c, s2, 4, h);
    LocalAfter(c, s, Called(s), s2);
    LocalOn(c, s, s2, TryAll(c, s2, 4).0);
  }

  /** Elements that make no sockets succeed, and leave sockets alone. */
  lemma OtherLocal(c: Config, s: State, e: Element, h: nat)
    requires Equipped(c) && Free(c, s) && Answers(c.o, s.calls, h) && !Maker(c, e)
    ensures var (s', ok) := AfterCreate(c, s, e); Local(c, s, s', ok)
  {
    assert c.o(s.calls) == Reply(true, h);
    hide Local, Equipped, Free, Answers, AfterCreateWireguard, AfterCreatePeer, AfterAddVxlan, AfterCreateTap;
    SameLocal(c, s, s);
    SameLocal(c, s, Called(s));
    match e.kind
    case Wireguard => WireguardLocal(c, s, e.isClient, h);
    case Peer => PeerLocal(c, s, e.isClient, h);
    case Vxlan => VxlanLocal(c, s, e.isClient, h);
    case KernelTap => TapLocal(c, s, e.isClient, h);
    case MemifElement => assert AfterCreateMemif(c, s, e.isClient) == (s, true);
    case Other =>
  }

  /** A memif that is up stays as it is. */
  lemma UpIsQuiet(c: Config, s: State, side: bool)
    requires c.conn(side).mechanism.MemifMech? && c.o(s.calls).ok
    requires side in s.m.ifindex && side in s.m.sockets && s.m.sockets[side].filename == FileOf(c, side)
    ensures AfterCreateMemif(c, s, side) == (Called(s), true)
  {
  }

  /** The numbers in use once the number of the side's record has been deleted. */
  function NumbersLeft(s: State, side: bool): set<nat> {
    if side in s.m.sockets then s.v.sockets.Keys - {s.m.sockets[side].id} else s.v.sockets.Keys
  }

  lemma StaleDeleted(c: Config, s: State, side: bool)
    requires !c.keepsUsed && NeverFails(c.d) && side !in s.m.ifindex && c.conn(side).mechanism.MemifMech?
    ensures var s1 := AfterDelMemif(c, s, side);
            && s1.calls == s.calls && s1.v.sockets.Keys == NumbersLeft(s, side) && s1.m.ifindex == s.m.ifindex && s1.v.ifs == s.v.ifs
            && s1.m.sockets.Keys == s.m.sockets.Keys
            && forall x :: x in s.m.sockets && x != side ==> s1.m.sockets[x] == s.m.sockets[x]
  {
  }

  lemma NewMemifMade(c: Config, s: State, side: bool, h: nat)
    requires !c.keepsUsed && NeverFails(c.d) && c.conn(side).mechanism.MemifMech? && side !in s.m.ifindex
    requires Answers(c.o, s.calls, h) && Equipped(c) && Free(c, s)
    ensures var (s', ok) := AfterCreateMemif(c, s, side);
            var id := Allocate(NumbersLeft(s, side), h);
            && ok && s'.calls >= s.calls && Free(c, s')
            && s'.m.sockets == s.m.sockets[side := Socket(true, id, FileOf(c, side))]
            && s'.v.sockets.Keys == NumbersLeft(s, side) + {id}
            && s'.m.ifindex.Keys == s.m.ifindex.Keys + {side}
  {
    var s1 := AfterDelMemif(c, s, side);
    StaleDeleted(c, s, side);
    SameFree(c, s, s1);
    assert c.o(s.calls) == c.o(s.calls + 1) == c.o(s.calls + 2) == Reply(true, h);
    hide AfterDelMemif, FirstFree, Free, Equipped, AddInterface;
    var (s2, ok2) := AddSocket(c, s1, side, FileOf(c, side));
    SameFree(c, s1, s2);
    var socket := s2.m.sockets[side];
    assert s1.m.sockets[side := socket] == s.m.sockets[side := socket] by {
      assert forall x :: x in s1.m.sockets && x != side ==> x in s.m.sockets;
    }
    AddFree(c, s2, side, MemifInterface(socket.id));
    AddedIff(c, s2, side, MemifInterface(socket.id));
    AddKeepsSockets(c, s2, side, MemifInterface(socket.id));
  }

  lemma AddKeepsSockets(c: Config, s: State, side: bool, device: Device)
    ensures var s' := AddInterface(c, s, side, device).0; s'.v.sockets == s.v.sockets && s'.m.sockets == s.m.sockets
  {
    hide FirstFree;
  }

  // ---- A request that makes everything ----

  /** The memif sides that have an interface. */
  function MemifsUp(c: Config, s: State): set<bool> {
    set x | x in s.m.ifindex && c.conn(x).mechanism.MemifMech?
  }

  /** The second side's number: the first free one from the hint on, once the number of its old record has been deleted. */
  function SecondId(recs: map<bool, Socket>, side: bool, h: nat): nat {
    Allocate(if side in recs then {h} - {recs[side].id} else {h}, h)
  }

  /** What a request through the chain has made of the old records: first the innermost side's socket, with the hinted
      number, then the other's. */
  ghost predicate Built(c: Config, recs: map<bool, Socket>, s: State, chain: seq<Element>, h: nat) {
    match First(c, chain)
    case None => s.m.sockets == recs && s.v.sockets.Keys == {} && MemifsUp(c, s) == {}
    case Some(x) =>
      var one := recs[x := Socket(true, h, FileOf(c, x))];
      if !Both(c, chain) then s.m.sockets == one && s.v.sockets.Keys == {h} && MemifsUp(c, s) == {x}
      else
        && s.m.sockets == one[!x := Socket(true, SecondId(recs, !x, h), FileOf(c, !x))]
        && MemifsUp(c, s) == {x, !x}
  }

  /** The sides that are up are those the chain so far has made. */
  lemma BuiltSides(c: Config, recs: map<bool, Socket>, s: State, chain: seq<Element>, h: nat)
    requires Built(c, recs, s, chain, h)
    ensures MemifsUp(c, s) == SocketSidesOf(c, chain)
    ensures Up(c, s, chain)
  {
    SidesAre(c, chain);
    hide SocketSidesOf, SecondId, FileOf, First, Both;
    assert forall x :: x in MemifsUp(c, s) ==> x in s.m.ifindex;
    if Both(c, chain) { BothHasFirst(c, chain); }
  }

  /** The sides on which the chain makes sockets are up, with the files they should have. */
  ghost predicate Up(c: Config, s: State, chain: seq<Element>) {
    forall x :: x in SocketSidesOf(c, chain) ==> x in s.m.ifindex && x in s.m.sockets && s.m.sockets[x].filename == FileOf(c, x)
  }

  /** One element more. */
  lemma BuildsOn(c: Config, recs: map<bool, Socket>, s: State, chain: seq<Element>, h: nat)
    requires !c.keepsUsed && NeverFails(c.d) && chain != [] && h != 0 && Built(c, recs, s, chain[1..], h)
    requires Equipped(c) && Free(c, s) && Answers(c.o, s.calls, h)
    ensures var (s', ok) := AfterCreate(c, s, chain[0]);
            ok && Built(c, recs, s', chain, h) && Free(c, s') && s'.calls >= s.calls
  {
    var e := chain[0];
    BuiltSides(c, recs, s, chain[1..], h);
    SidesAreMemif(c, chain[1..]);
    hide AfterCreateMemif, Built, Both, First, SocketSidesOf, FileOf, Equipped, Free;
    if !Maker(c, e) {
      OtherLocal(c, s, e, h);
      BuiltQuietly(c, recs, s, AfterCreate(c, s, e).0, chain, h);
    } else if e.isClient in s.m.ifindex {
      assert c.o(s.calls) == Reply(true, h);
      assert e.isClient in MemifsUp(c, s);
      UpIsQuiet(c, s, e.isClient);
      SameFree(c, s, Called(s));
      SameLocal(c, s, Called(s));
      BuiltQuietly(c, recs, s, Called(s), chain, h);
    } else {
      NewMemifMade(c, s, e.isClient, h);
      BuiltWithNew(c, recs, s, AfterCreateMemif(c, s, e.isClient).0, chain, h);
    }
  }

  lemma BuiltQuietly(c: Config, recs: map<bool, Socket>, s: State, s': State, chain: seq<Element>, h: nat)
    requires chain != [] && Built(c, recs, s, chain[1..], h) && Local(c, s, s', true)
    requires Maker(c, chain[0]) ==> chain[0].isClient in s.m.ifindex
    ensures Built(c, recs, s', chain, h)
  {
    if Both(c, chain[1..]) { BothHasFirst(c, chain[1..]); }
    LocalUp(c, s, s');
    if Maker(c, chain[0]) { UpAmong(c, s, chain[0].isClient); }
    hide FileOf, SecondId, Local, MemifsUp;
  }

  lemma LocalUp(c: Config, s: State, s': State)
    requires Local(c, s, s', true)
    ensures MemifsUp(c, s') == MemifsUp(c, s) && s'.v.sockets == s.v.sockets && s'.m.sockets == s.m.sockets
  {
    hide Free;
    forall x
      ensures x in MemifsUp(c, s') <==> x in MemifsUp(c, s)
    {
    }
  }

  lemma UpAmong(c: Config, s: State, side: bool)
    requires side in s.m.ifindex && c.conn(side).mechanism.MemifMech?
    ensures side in MemifsUp(c, s)
  {
  }

  lemma BuiltWithNew(c: Config, recs: map<bool, Socket>, s: State, s': State, chain: seq<Element>, h: nat)
    requires chain != [] && h != 0 && Built(c, recs, s, chain[1..], h)
    requires Maker(c, chain[0]) && chain[0].isClient !in s.m.ifindex
    requires var side := chain[0].isClient;
             var id := Allocate(NumbersLeft(s, side), h);
             && s'.m.sockets == s.m.sockets[side := Socket(true, id, FileOf(c, side))]
             && s'.v.sockets.Keys == NumbersLeft(s, side) + {id} && s'.m.ifindex.Keys == s.m.ifindex.Keys + {side}
    ensures Built(c, recs, s', chain, h)
  {
    var side := chain[0].isClient;
    if Both(c, chain[1..]) { BothHasFirst(c, chain[1..]); }
    assert MemifsUp(c, s') == MemifsUp(c, s) + {side} && side !in MemifsUp(c, s);
    hide FirstFree, Maker, FileOf, MemifsUp;
    if First(c, chain[1..]).None? {
      assert NumbersLeft(s, side) == {};
    } else {
      NotUp(c, recs, s, chain[1..], h, side);
      assert NumbersLeft(s, side) == if side in recs then {h} - {recs[side].id} else {h};
    }
  }

  lemma NotUp(c: Config, recs: map<bool, Socket>, s: State, chain: seq<Element>, h: nat, side: bool)
    requires Built(c, recs, s, chain, h) && side !in MemifsUp(c, s) && First(c, chain).Some?
    ensures !Both(c, chain) && side == !First(c, chain).value
  {
    hide MemifsUp;
  }

  lemma {:induction false} Builds(c: Config, s: State, chain: seq<Element>, h: nat)
    requires !c.keepsUsed && NeverFails(c.d) && h != 0 && Equipped(c) && Free(c, s)
    requires s.v.sockets.Keys == {} && MemifsUp(c, s) == {} && Answers(c.o, s.calls, h)
    ensures var (s', ok) := AfterRequest(c, s, chain);
            ok && Built(c, s.m.sockets, s', chain, h) && Free(c, s') && s'.calls > s.calls
    decreases |chain|
  {
    hide AfterCreate, Built, Equipped, Free, MemifsUp;
    if chain == [] {
      assert c.o(s.calls) == Reply(true, h);
      SameFree(c, s, Called(s));
      BuiltNothing(c, s, Called(s), h);
    } else {
      Builds(c, s, chain[1..], h);
      BuildsOn(c, s.m.sockets, AfterRequest(c, s, chain[1..]).0, chain, h);
    }
  }

  lemma BuiltNothing(c: Config, s: State, s': State, h: nat)
    requires s.v.sockets.Keys == {} && MemifsUp(c, s) == {} && s'.v == s.v && s'.m == s.m
    ensures Built(c, s.m.sockets, s', [], h)
  {
    assert MemifsUp(c, s') == MemifsUp(c, s);
  }

  // ---- A refresh that fails at the outermost maker ----

  lemma UpPart(c: Config, s: State, chain: seq<Element>)
    requires chain != [] && Up(c, s, chain)
    ensures Up(c, s, chain[1..])
    ensures Maker(c, chain[0]) ==>
      var x := chain[0].isClient; x in s.m.ifindex && x in s.m.sockets && s.m.sockets[x].filename == FileOf(c, x)
  {
    SocketSidesFirst(c, chain);
    OneSide(c, chain[0]);
    hide SocketSidesOf, Maker, FileOf;
  }

  /** A refresh of what is up succeeds and leaves it up. */
  lemma {:induction false} RefreshKeepsUp(c: Config, s: State, chain: seq<Element>, h: nat)
    requires Equipped(c) && Free(c, s) && Up(c, s, chain) && Answers(c.o, s.calls, h)
    ensures var (s', ok) := AfterRequest(c, s, chain); Local(c, s, s', ok)
    decreases |chain|
  {
    hide AfterCreate, AfterCreateMemif, Up, FileOf, Local, Equipped, Free;
    if chain == [] {
      assert c.o(s.calls) == Reply(true, h);
      SameLocal(c, s, Called(s));
    } else {
      UpPart(c, s, chain);
      RefreshKeepsUp(c, s, chain[1..], h);
      var (s1, ok1) := AfterRequest(c, s, chain[1..]);
      LocalIsOk(c, s, s1, ok1);
      LocalKeepsUp(c, s, s1, chain);
      UpPart(c, s1, chain);
      RefreshOn(c, s1, chain[0], h);
      var (s2, ok2) := AfterCreate(c, s1, chain[0]);
      LocalIsOk(c, s1, s2, ok2);
      LocalTwice(c, s, s1, s2);
    }
  }

  lemma LocalKeepsUp(c: Config, s: State, s': State, chain: seq<Element>)
    requires Up(c, s, chain) && Local(c, s, s', true)
    ensures Up(c, s', chain)
  {
    SidesAreMemif(c, chain);
    hide SocketSidesOf, FileOf;
  }

  lemma LocalTwice(c: Config, s: State, s1: State, s2: State)
    requires Local(c, s, s1, true) && Local(c, s1, s2, true)
    ensures Local(c, s, s2, true)
  {
    hide Free;
  }

  lemma RefreshOn(c: Config, s: State, e: Element, h: nat)
    requires Equipped(c) && Free(c, s) && Answers(c.o, s.calls, h)
    requires Maker(c, e) ==> e.isClient in s.m.ifindex && e.isClient in s.m.sockets && s.m.sockets[e.isClient].filename == FileOf(c, e.isClient)
    ensures var (s', ok) := AfterCreate(c, s, e); Local(c, s, s', ok)
  {
    assert c.o(s.calls) == Reply(true, h);
    hide AfterCreateMemif, FileOf, Equipped, Free, Local;
    if Maker(c, e) {
      UpIsQuiet(c, s, e.isClient);
      SameLocal(c, s, Called(s));
    } else {
      OtherLocal(c, s, e, h);
    }
  }

  // ---- Answers that are not asked for ----

  /** The calls from one on and before another are answered alike. */
  ghost predicate Alike(o: Oracle, o': Oracle, from: nat, to: nat) {
    forall i: nat :: from <= i < to ==> o(i) == o'(i)
  }

  lemma TryAlike(c: Config, o: Oracle, s: State)
    ensures Try(c, s).0.calls == s.calls + 1
    ensures Alike(c.o, o, s.calls, s.calls + 1) ==> Try(c.(o := o), s) == Try(c, s)
  {
  }

  lemma AddAlike(c: Config, o: Oracle, s: State, side: bool, device: Device)
    ensures AddInterface(c, s, side, device).0.calls == s.calls + 1
    ensures Alike(c.o, o, s.calls, s.calls + 1) ==> AddInterface(c.(o := o), s, side, device) == AddInterface(c, s, side, device)
  {
    hide FirstFree;
  }

  lemma {:induction false} TryAllAlike(c: Config, o: Oracle, s: State, n: nat)
    ensures TryAll(c, s, n).0.calls >= s.calls
    ensures Alike(c.o, o, s.calls, TryAll(c, s, n).0.calls) ==> TryAll(c.(o := o), s, n) == TryAll(c, s, n)
    decreases n
  {
    if n > 0 {
      TryAllAlike(c, o, Called(s), n - 1);
    }
  }

  lemma DeleteAlike(c: Config, o: Oracle, s: State, side: bool)
    ensures DeleteInterface(c, s, side).0.calls == s.calls
    ensures DeleteInterface(c.(o := o), s, side) == DeleteInterface(c, s, side)
  {
  }

  lemma WireguardAlike(c: Config, o: Oracle, s: State, side: bool)
    ensures AfterCreateWireguard(c, s, side).0.calls >= s.calls
    ensures Alike(c.o, o, s.calls, AfterCreateWireguard(c, s, side).0.calls) ==>
            AfterCreateWireguard(c.(o := o), s, side) == AfterCreateWireguard(c, s, side)
  {
    hide AddInterface;
    if c.conn(side).mechanism.WireguardMech? { AddAlike(c, o, s, side, WgInterfaceOf(c.conn(side).mechanism, side)); }
  }

  lemma PeerAlike(c: Config, o: Oracle, s: State, side: bool)
    ensures AfterCreatePeer(c, s, side).0.calls >= s.calls
    ensures Alike(c.o, o, s.calls, AfterCreatePeer(c, s, side).0.calls) ==>
            AfterCreatePeer(c.(o := o), s, side) == AfterCreatePeer(c, s, side)
  {
    hide FirstFree;
  }

  lemma VxlanAlike(c: Config, o: Oracle, s: State, side: bool)
    ensures AfterAddVxlan(c, s, side).0.calls >= s.calls
    ensures Alike(c.o, o, s.calls, AfterAddVxlan(c, s, side).0.calls) ==>
            AfterAddVxlan(c.(o := o), s, side) == AfterAddVxlan(c, s, side)
  {
    var m := c.conn(side).mechanism;
    if m.VxlanMech? { AddAlike(c, o, Called(s), side, TunnelOf(m, side)); }
    hide AddInterface, TunnelOf;
  }

  lemma NewTapAlike(c: Config, o: Oracle, s: State, side: bool)
    requires c.conn(side).mechanism.KernelMech?
    ensures NewTap(c, s, side).0.calls >= s.calls
    ensures Alike(c.o, o, s.calls, NewTap(c, s, side).0.calls) ==> NewTap(c.(o := o), s, side) == NewTap(c, s, side)
  {
    var device := TapOf(c.conn(side));
    AddAlike(c, o, Called(s), side, device);
    TryAllAlike(c, o, AddInterface(c, Called(s), side, device).0, 4);
    hide AddInterface, TryAll;
  }

  lemma TapAlike(c: Config, o: Oracle, s: State, side: bool)
    ensures AfterCreateTap(c, s, side).0.calls >= s.calls
    ensures Alike(c.o, o, s.calls, AfterCreateTap(c, s, side).0.calls) ==>
            AfterCreateTap(c.(o := o), s, side) == AfterCreateTap(c, s, side)
  {
    if c.conn(side).mechanism.KernelMech? {
      var s1 := if side in s.m.ifindex then Called(Called(s)) else Called(s);
      DeleteAlike(c, o, s1, side);
      NewTapAlike(c, o, AfterDelTap(c, s1, side), side);
      hide NewTap, DeleteInterface;
    }
  }

  lemma DelMemifAlike(c: Config, o: Oracle, s: State, side: bool)
    ensures AfterDelMemif(c, s, side).calls == s.calls
    ensures AfterDelMemif(c.(o := o), s, side) == AfterDelMemif(c, s, side)
  {
    DeleteAlike(c, o, s, side);
    hide DeleteInterface;
  }

  lemma NewMemifAlike(c: Config, o: Oracle, s: State, side: bool)
    requires c.conn(side).mechanism.MemifMech?
    ensures NewMemif(c, s, side).0.calls >= s.calls
    ensures Alike(c.o, o, s.calls, NewMemif(c, s, side).0.calls) ==> NewMemif(c.(o := o), s, side) == NewMemif(c, s, side)
  {
    hide FirstFree, AddInterface;
    var (s1, ok) := AddSocket(c, s, side, c.conn(side).mechanism.socketFilename);
    if ok { AddAlike(c, o, s1, side, MemifInterface(s1.m.sockets[side].id)); }
  }

  lemma MemifAlike(c: Config, o: Oracle, s: State, side: bool)
    ensures AfterCreateMemif(c, s, side).0.calls >= s.calls
    ensures Alike(c.o, o, s.calls, AfterCreateMemif(c, s, side).0.calls) ==>
            AfterCreateMemif(c.(o := o), s, side) == AfterCreateMemif(c, s, side)
  {
    if c.conn(side).mechanism.MemifMech? {
      var s1 := if side in s.m.ifindex then Called(s) else s;
      DelMemifAlike(c, o, s1, side);
      NewMemifAlike(c, o, AfterDelMemif(c, s1, side), side);
      hide NewMemif, AfterDelMemif;
    }
  }

  lemma CreateAlike(c: Config, o: Oracle, s: State, e: Element)
    ensures AfterCreate(c, s, e).0.calls >= s.calls
    ensures Alike(c.o, o, s.calls, AfterCreate(c, s, e).0.calls) ==> AfterCreate(c.(o := o), s, e) == AfterCreate(c, s, e)
  {
    hide AfterCreateWireguard, AfterCreatePeer, AfterAddVxlan, AfterCreateTap, AfterCreateMemif, Alike;
    TryAlike(c, o, s);
    WireguardAlike(c, o, s, e.isClient);
    PeerAlike(c, o, s, e.isClient);
    VxlanAlike(c, o, s, e.isClient);
    TapAlike(c, o, s, e.isClient);
    MemifAlike(c, o, s, e.isClient);
  }

  lemma DelAlike(c: Config, o: Oracle, s: State, e: Element)
    ensures AfterDel(c, s, e).calls == s.calls && AfterDel(c.(o := o), s, e) == AfterDel(c, s, e)
  {
    DeleteAlike(c, o, s, e.isClient);
    DeleteAlike(c, o, s.(m := s.m.(wgKeys := s.m.wgKeys - {e.isClient})), e.isClient);
    DelMemifAlike(c, o, s, e.isClient);
    DelVxlanAlike(c, o, s, e.isClient);
    hide DeleteInterface, AfterDelMemif, AfterDelVxlan;
  }

  lemma DelVxlanAlike(c: Config, o: Oracle, s: State, side: bool)
    ensures AfterDelVxlan(c, s, side).0.calls == s.calls && AfterDelVxlan(c.(o := o), s, side) == AfterDelVxlan(c, s, side)
  {
    hide TunnelOf, Without;
  }

  lemma {:induction false} CloseAlike(c: Config, o: Oracle, s: State, chain: seq<Element>)
    ensures AfterClose(c, s, chain).calls == s.calls && AfterClose(c.(o := o), s, chain) == AfterClose(c, s, chain)
    decreases |chain|
  {
    hide AfterDel;
    if chain != [] {
      DelAlike(c, o, s, chain[0]);
      CloseAlike(c, o, AfterDel(c, s, chain[0]), chain[1..]);
    }
  }

  /** A request does not depend on the answers to calls it does not make. */
  lemma {:induction false} RequestAlike(c: Config, o: Oracle, s: State, chain: seq<Element>)
    ensures AfterRequest(c, s, chain).0.calls >= s.calls
    ensures Alike(c.o, o, s.calls, AfterRequest(c, s, chain).0.calls) ==> AfterRequest(c.(o := o), s, chain) == AfterRequest(c, s, chain)
    decreases |chain|
  {
    hide AfterCreate, AfterClose, Try, Alike;
    if chain == [] {
      TryAlike(c, o, s);
    } else {
      RequestAlike(c, o, s, chain[1..]);
      var (s1, ok1) := AfterRequest(c, s, chain[1..]);
      CreateAlike(c, o, s1, chain[0]);
      var s2 := AfterCreate(c, s1, chain[0]).0;
      CloseAlike(c, o, s2, chain);
      AlikeParts(c.o, o, s.calls, s1.calls, s2.calls);
    }
  }

  lemma AlikeParts(o: Oracle, o': Oracle, a: nat, b: nat, c: nat)
    requires a <= b <= c
    ensures Alike(o, o', a, c) ==> Alike(o, o', a, b) && Alike(o, o', b, c)
  {
  }

  /** The chain from its outermost maker on. */
  function FromOuter(c: Config, chain: seq<Element>): (outer: seq<Element>)
    ensures outer != [] ==> Maker(c, outer[0])
  {
    if chain == [] then [] else if Maker(c, chain[0]) then chain else FromOuter(c, chain[1..])
  }

  lemma {:induction false} OuterIsMaker(c: Config, s: State, chain: seq<Element>)
    requires First(c, chain).Some? && Up(c, s, chain)
    ensures FromOuter(c, chain) != [] && Up(c, s, FromOuter(c, chain))
  {
    hide Maker, Up;
    UpPart(c, s, chain);
    if !Maker(c, chain[0]) { OuterIsMaker(c, s, chain[1..]); }
  }

  /** A request that fails at the outermost maker does what one of the chain from there on does. */
  lemma {:induction false} FailsFromOuter(c: Config, s: State, chain: seq<Element>)
    requires FromOuter(c, chain) != [] && !AfterRequest(c, s, FromOuter(c, chain)).1
    ensures AfterRequest(c, s, chain) == AfterRequest(c, s, FromOuter(c, chain))
    decreases |chain|
  {
    hide Maker, AfterCreate, AfterClose;
    if !Maker(c, chain[0]) { FailsFromOuter(c, s, chain[1..]); }
  }

  /** The call with which the outermost maker works out its file name, if all calls before it succeed. */
  function FailureOf(c: Config, s: State, chain: seq<Element>): nat
    requires FromOuter(c, chain) != []
  {
    AfterRequest(c, s, FromOuter(c, chain)[1..]).0.calls
  }

  /** VPP answers all calls but one; it hints at number 1 before it and at another one from then on. */
  function FailsOnce(f: nat, hint: nat): Oracle {
    n => Reply(n != f, if n < f then 1 else hint)
  }

  const WILLING: Oracle := n => Reply(true, 1)

  lemma FailsLater(f: nat, h: nat, from: nat, to: nat)
    requires to <= f
    ensures Alike(WILLING, FailsOnce(f, h), from, to)
  {
  }

  /** If that call fails, the refresh undoes every element from there on. */
  lemma FailingRefresh(c: Config, s: State, chain: seq<Element>, h: nat)
    requires c.o == WILLING && Equipped(c) && Free(c, s) && Up(c, s, chain) && First(c, chain).Some?
    requires FromOuter(c, chain) != []
    ensures var f := FailureOf(c, s, chain);
            var c' := c.(o := FailsOnce(f, h));
            var s1 := AfterRequest(c, s, FromOuter(c, chain)[1..]).0;
            && s.calls <= f && Local(c, s, s1, true) && s1.calls == f
            && AfterRequest(c', s, chain) == (AfterClose(c, Called(s1), FromOuter(c, chain)), false)
  {
    var outer, f := FromOuter(c, chain), FailureOf(c, s, chain);
    var o := FailsOnce(f, h);
    var c' := c.(o := o);
    assert Answers(c.o, s.calls, 1);
    OuterIsMaker(c, s, chain);
    SameMakers(c, o, chain);
    hide AfterRequest, AfterCreate, AfterClose, Equipped, Free, Up, Local, FromOuter, First, Maker, FailsOnce;
    UpPart(c, s, outer);
    RefreshKeepsUp(c, s, outer[1..], 1);
    var s1 := AfterRequest(c, s, outer[1..]).0;
    LocalIsOk(c, s, s1, AfterRequest(c, s, outer[1..]).1);
    LocalKeepsUp(c, s, s1, outer);
    UpPart(c, s1, outer);
    RequestAlike(c, o, s, outer[1..]);
    FailsLater(f, h, s.calls, f);
    FailsAtOuter(c', s, outer, s1);
    CloseAlike(c, o, Called(s1), outer);
    FailsFromOuter(c', s, chain);
  }

  lemma FailsAtOuter(c: Config, s: State, outer: seq<Element>, s1: State)
    requires outer != [] && Maker(c, outer[0]) && AfterRequest(c, s, outer[1..]) == (s1, true)
    requires outer[0].isClient in s1.m.ifindex && !c.o(s1.calls).ok
    ensures AfterRequest(c, s, outer) == (AfterClose(c, Called(s1), outer), false)
  {
    assert AfterCreate(c, s1, outer[0]) == (Called(s1), false);
    hide AfterClose, AfterCreate;
  }

  /** Who makes what does not depend on VPP's answers. */
  lemma {:induction false} SameMakers(c: Config, o: Oracle, chain: seq<Element>)
    ensures var c' := c.(o := o);
            && First(c', chain) == First(c, chain) && Both(c', chain) == Both(c, chain)
            && SocketSidesOf(c', chain) == SocketSidesOf(c, chain) && FromOuter(c', chain) == FromOuter(c, chain)
            && forall e :: Maker(c', e) == Maker(c, e)
  {
    if chain != [] { SameMakers(c, o, chain[1..]); }
  }

  // ---- A request and a failing refresh ----

  const EMPTY := VppState(map[], map[], map[])
  const START := World(EMPTY, map[], 0, 0)
  const NEW := State(EMPTY, NO_METADATA, 0, 0)

  /** The innermost side has number 1, the other one number 2. */
  ghost predicate Numbered(c: Config, chain: seq<Element>, sockets: map<bool, Socket>) {
    match First(c, chain)
    case None => sockets == map[]
    case Some(x) => if Both(c, chain) then sockets.Keys == {x, !x} && sockets[x].id == 1 && sockets[!x].id == 2
                    else sockets.Keys == {x} && sockets[x].id == 1
  }

  /** A connection that can be served and makes sockets, on a VPP that deletes sockets that are in use. */
  ghost predicate Exposed(c: Config, chain: seq<Element>) {
    !c.keepsUsed && NeverFails(c.d) && Equipped(c) && First(c, chain).Some?
  }

  /** The connection is up after its first request. */
  ghost predicate Served(c: Config, s: State, chain: seq<Element>) {
    && Up(c, s, chain) && Free(c, s) && Numbered(c, chain, s.m.sockets) && (forall x :: x in s.m.sockets ==> s.m.sockets[x].isAdd)
    && InOrder(c, EMPTY, s) && OnlyMinded(c, NO_METADATA, s.m, chain, true)
  }

  lemma FirstRound(c: Config, chain: seq<Element>)
    requires Exposed(c, chain) && c.o == WILLING
    ensures var (s, ok) := AfterRequest(c, NEW, chain); ok && Served(c, s, chain)
  {
    assert Answers(c.o, 0, 1) && Free(c, NEW) && MemifsUp(c, NEW) == {};
    hide Answers, AfterRequest, Built, InOrder, Up, Numbered, SocketSidesOf, Free, Equipped, First, MemifsUp, Holds;
    Builds(c, NEW, chain, 1);
    var s := AfterRequest(c, NEW, chain).0;
    BuiltSides(c, map[], s, chain, 1);
    BuiltNumbers(c, s, chain);
    FreshInOrder(c, NEW);
    RequestKeeps(c, EMPTY, NEW, chain, {true, false});
  }

  lemma BuiltNumbers(c: Config, s: State, chain: seq<Element>)
    requires Built(c, map[], s, chain, 1)
    ensures Numbered(c, chain, s.m.sockets) && forall x :: x in s.m.sockets ==> s.m.sockets[x].isAdd
  {
    assert FirstFree({1}, 1) == FirstFree({1}, 2) == 2;
    hide First, Both, FileOf;
  }

  /** Nothing of memif is left but records. */
  ghost predicate OnlyRecords(c: Config, s: State, chain: seq<Element>) {
    && s.v.sockets.Keys == {} && MemifsUp(c, s) == {} && Numbered(c, chain, s.m.sockets) && InOrder(c, EMPTY, s)
  }

  /** What a memif element makes. */
  predicate OfMemif(c: Config, t: Thing) {
    (t.Interface? || t.SocketOf?) && c.conn(t.isClient).mechanism.MemifMech?
  }

  /** The failing refresh leaves nothing of memif but the records. */
  lemma SecondRound(c: Config, s: State, chain: seq<Element>, h: nat)
    requires Exposed(c, chain) && c.o == WILLING && Served(c, s, chain)
    ensures FromOuter(c, chain) != []
    ensures var f := FailureOf(c, s, chain);
            var (s', ok) := AfterRequest(c.(o := FailsOnce(f, h)), s, chain);
            && s.calls <= f && !ok && s'.calls == f + 1 && OnlyRecords(c, s', chain)
  {
    hide AfterRequest, AfterClose, InOrder, Up, Numbered, Free, Equipped, First, FromOuter, Local, FailsOnce, MindsAny, Holds, OnlyRecords, FailureOf;
    OuterIsMaker(c, s, chain);
    FailingRefresh(c, s, chain, h);
    var outer := FromOuter(c, chain);
    var s1 := AfterRequest(c, s, outer[1..]).0;
    FailureIs(c, s, chain);
    AllLive(c, s.m.sockets, outer[1..]);
    RequestKeeps(c, EMPTY, s, outer[1..], {true, false});
    SameInOrder(c, EMPTY, s1, Called(s1));
    var s2 := AfterClose(c, Called(s1), outer);
    CloseKeeps(c, EMPTY, Called(s1), outer);
    CloseKeepsIds(c, Called(s1), outer);
    CloseAlike(c, c.o, Called(s1), outer);
    MemifDropped(c, s, s1, s2, chain);
    NumbersStay(c, chain, s1.m.sockets, s2.m.sockets);
    RecordsOnly(c, s2, chain);
  }

  lemma AllLive(c: Config, sockets: map<bool, Socket>, chain: seq<Element>)
    requires forall x :: x in sockets ==> sockets[x].isAdd
    ensures Undisturbed(c, {true, false}, sockets) && SocketSidesOf(c, chain) <= {true, false}
  {
    assert forall x :: x in sockets.Keys ==> x == true || x == false;
    assert SocketSidesOf(c, chain) <= {true, false};
  }

  lemma FailureIs(c: Config, s: State, chain: seq<Element>)
    requires FromOuter(c, chain) != []
    ensures FailureOf(c, s, chain) == AfterRequest(c, s, FromOuter(c, chain)[1..]).0.calls
    ensures forall s1, ok :: Local(c, s, s1, ok) ==> s1.m.sockets == s.m.sockets
  {
    hide AfterRequest, Free, FromOuter;
  }

  lemma NumbersStay(c: Config, chain: seq<Element>, sockets: map<bool, Socket>, sockets': map<bool, Socket>)
    requires Numbered(c, chain, sockets) && SameIds(sockets, sockets')
    ensures Numbered(c, chain, sockets')
  {
    hide First, Both;
    assert sockets.Keys == {} ==> sockets' == map[];
    assert forall x :: x in sockets.Keys <==> x in sockets;
  }

  lemma {:induction false} OuterMinds(c: Config, chain: seq<Element>, t: Thing)
    requires OfMemif(c, t)
    ensures MindsAny(c, chain, t) ==> MindsAny(c, FromOuter(c, chain), t)
  {
    if chain != [] {
      assert !Maker(c, chain[0]) ==> !Minds(c, chain[0], t);
      hide Minds, Maker, OfMemif;
      OuterMinds(c, chain[1..], t);
      MindsFirst(c, chain, t);
    }
    hide MindsAny;
  }

  lemma MemifDropped(c: Config, s: State, s1: State, s2: State, chain: seq<Element>)
    requires OnlyMinded(c, NO_METADATA, s.m, chain, true) && Local(c, s, s1, true) && DropsAll(c, s1.m, s2.m, FromOuter(c, chain))
    ensures forall t :: OfMemif(c, t) ==> !Holds(s2.m, t)
  {
    hide MindsAny, FromOuter;
    forall t | OfMemif(c, t)
      ensures !Holds(s2.m, t)
    {
      OuterMinds(c, chain, t);
      NothingHeldAtFirst(t);
      LocalHolds(c, s, s1, t);
      hide Holds, OfMemif, Local;
    }
  }

  lemma LocalHolds(c: Config, s: State, s1: State, t: Thing)
    requires Local(c, s, s1, true) && OfMemif(c, t)
    ensures Holds(s1.m, t) <==> Holds(s.m, t)
  {
    hide LiveSockets, Free;
  }

  lemma NothingHeldAtFirst(t: Thing)
    ensures !Holds(NO_METADATA, t)
  {
    assert LiveSockets(map[]) == map[];
  }

  lemma RecordsOnly(c: Config, s: State, chain: seq<Element>)
    requires InOrder(c, EMPTY, s) && Numbered(c, chain, s.m.sockets) && forall t :: OfMemif(c, t) ==> !Holds(s.m, t)
    ensures OnlyRecords(c, s, chain)
  {
    hide First, Both, Numbered;
    forall x
      ensures x !in MemifsUp(c, s) && x !in LiveSockets(s.m.sockets)
    {
      SocketSides(c, EMPTY, s);
      assert OfMemif(c, Interface(x)) ==> !Holds(s.m, Interface(x));
      assert OfMemif(c, SocketOf(x)) ==> !Holds(s.m, SocketOf(x));
    }
    assert LiveSockets(s.m.sockets) == map[];
    NothingHeld(EMPTY.sockets, s.v.sockets, LiveSockets(s.m.sockets));
  }

  // ---- Records ----

  /** Every record keeps its number. */
  predicate SameIds(sockets: map<bool, Socket>, sockets': map<bool, Socket>) {
    sockets'.Keys == sockets.Keys && forall x :: x in sockets ==> sockets'[x].id == sockets[x].id
  }

  /** Elements that make no sockets undo none, and no undoing adds an interface. */
  lemma OtherDel(c: Config, s: State, e: Element)
    requires !Maker(c, e)
    ensures var s' := AfterDel(c, s, e);
            s'.v.sockets == s.v.sockets && s'.m.sockets == s.m.sockets && s'.m.ifindex.Keys <= s.m.ifindex.Keys
  {
    DeleteKeepsSockets(c, s, e.isClient);
    DeleteKeepsSockets(c, s.(m := s.m.(wgKeys := s.m.wgKeys - {e.isClient})), e.isClient);
    hide DeleteInterface, TunnelOf, Without;
  }

  lemma DeleteKeepsSockets(c: Config, s: State, side: bool)
    ensures var s' := DeleteInterface(c, s, side).0;
            s'.v.sockets == s.v.sockets && s'.m.sockets == s.m.sockets && s'.m.ifindex.Keys <= s.m.ifindex.Keys
  {
  }

  lemma MakerDel(c: Config, s: State, e: Element)
    requires Maker(c, e)
    ensures SameIds(s.m.sockets, AfterDel(c, s, e).m.sockets)
  {
    DeleteKeepsSockets(c, s, e.isClient);
    hide DeleteInterface, Refuses;
  }

  /** A close changes no number in the records. */
  lemma {:induction false} CloseKeepsIds(c: Config, s: State, chain: seq<Element>)
    ensures SameIds(s.m.sockets, AfterClose(c, s, chain).m.sockets)
    decreases |chain|
  {
    hide AfterDel, Maker;
    if chain != [] {
      if Maker(c, chain[0]) { MakerDel(c, s, chain[0]); } else { OtherDel(c, s, chain[0]); }
      CloseKeepsIds(c, AfterDel(c, s, chain[0]), chain[1..]);
    }
  }

  /** A close deletes the sockets that the records name, whoever has them now. */
  lemma {:induction false} CloseTakes(c: Config, s: State, chain: seq<Element>, id: nat)
    requires !c.keepsUsed && NeverFails(c.d) && MemifsUp(c, s) == {}
    requires SocketSidesOf(c, chain) <= s.m.sockets.Keys && forall x :: x in s.m.sockets ==> s.m.sockets[x].id == id
    ensures id !in s.v.sockets || First(c, chain).Some? ==> id !in AfterClose(c, s, chain).v.sockets
    decreases |chain|
  {
    if chain != [] {
      SocketSidesFirst(c, chain);
      OneSide(c, chain[0]);
      hide AfterDel, Maker, SocketSidesOf, MemifsUp;
      if Maker(c, chain[0]) { DelTakes(c, s, chain[0]); } else { OtherDel(c, s, chain[0]); }
      StillDown(c, s, AfterDel(c, s, chain[0]));
      CloseTakes(c, AfterDel(c, s, chain[0]), chain[1..], id);
    }
  }

  lemma StillDown(c: Config, s: State, s': State)
    requires MemifsUp(c, s) == {} && s'.m.ifindex.Keys <= s.m.ifindex.Keys
    ensures MemifsUp(c, s') == {}
  {
    forall x
      ensures x !in MemifsUp(c, s')
    {
      assert x !in MemifsUp(c, s);
      assert x in s'.m.ifindex ==> x in s'.m.ifindex.Keys;
    }
  }

  lemma DelTakes(c: Config, s: State, e: Element)
    requires !c.keepsUsed && NeverFails(c.d) && Maker(c, e) && MemifsUp(c, s) == {} && e.isClient in s.m.sockets
    ensures var s' := AfterDel(c, s, e);
            && s'.v.sockets == s.v.sockets - {s.m.sockets[e.isClient].id} && s'.m.ifindex == s.m.ifindex
            && SameIds(s.m.sockets, s'.m.sockets)
  {
    if e.isClient in s.m.ifindex {
      UpAmong(c, s, e.isClient);
    }
  }

  // ---- The collisions ----

  /** After two requests of a connection, of which the second has failed, nothing of memif is left but records. */
  ghost predicate RecordsLeft(n: Net, w: World, j: nat) {
    w.md.Keys == {j} && OnlyRecords(ConfigOf(n, j), StateOf(w, j), n.chain(j))
  }

  /** A request that succeeds, and any request of a connection that has metadata, stores what it leaves. */
  lemma RequestStored(n: Net, w: World, j: nat)
    ensures var w' := AfterStep(n, w, Request(j));
            var (s, ok) := AfterRequest(ConfigOf(n, j), StateOf(w, j), n.chain(j));
            && w'.v == s.v && w'.calls == s.calls
            && (ok || j in w.md ==> w'.md == w.md[j := s.m] && StateOf(w', j) == s)
  {
    hide AfterRequest;
  }

  lemma TwoRequests(n: Net, j: nat, h: nat) returns (f: nat)
    requires Exposed(ConfigOf(n, j), n.chain(j)) && n.o == WILLING
    ensures var n' := n.(o := FailsOnce(f, h));
            var w := Run(n', START, [Request(j), Request(j)]);
            RecordsLeft(n', w, j) && w.calls == f + 1
  {
    var c, chain := ConfigOf(n, j), n.chain(j);
    hide Exposed, AfterRequest, Served, OnlyRecords, FromOuter, FailureOf, FailsOnce, Run, AfterStep, Alike, Answers;
    FirstRound(c, chain);
    var s := AfterRequest(c, NEW, chain).0;
    SecondRound(c, s, chain, h);
    f := FailureOf(c, s, chain);
    var n' := n.(o := FailsOnce(f, h));
    var c' := ConfigOf(n', j);
    RequestAlike(c, n'.o, NEW, chain);
    FailsLater(f, h, 0, s.calls);
    var w1 := AfterStep(n', START, Request(j));
    RequestStored(n', START, j);
    RequestStored(n', w1, j);
    SameRecords(c, n'.o, StateOf(AfterStep(n', w1, Request(j)), j), chain);
    RunMore(n', START, [], Request(j));
    RunMore(n', START, [Request(j)], Request(j));
    assert [Request(j)] + [Request(j)] == [Request(j), Request(j)];
  }

  lemma SameRecords(c: Config, o: Oracle, s: State, chain: seq<Element>)
    requires OnlyRecords(c, s, chain)
    ensures OnlyRecords(c.(o := o), s, chain)
  {
    SameMakers(c, o, chain);
    SameOrder(c, o, s);
    hide InOrder, First, Both;
  }

  lemma SameOrder(c: Config, o: Oracle, s: State)
    requires InOrder(c, EMPTY, s)
    ensures InOrder(c.(o := o), EMPTY, s)
  {
    hide Accounted, LiveSockets, TunnelOf;
  }

  /** Another request gives both sides of the connection one number: the second side's old record takes the first side's
      new socket from under its memif. */
  lemma OneConnectionCollides(n: Net, j: nat) returns (o: Oracle)
    requires Exposed(ConfigOf(n, j), n.chain(j)) && n.o == WILLING && Both(ConfigOf(n, j), n.chain(j))
    ensures !Accounts(EMPTY, Run(n.(o := o), START, [Request(j), Request(j)] + [Request(j)]))
  {
    var f := TwoRequests(n, j, 2);
    o := FailsOnce(f, 2);
    var n' := n.(o := o);
    var c', chain, w := ConfigOf(n', j), n.chain(j), Run(n', START, [Request(j), Request(j)]);
    assert Answers(o, f + 1, 2);
    BothFree(ConfigOf(n, j), o, StateOf(w, j), chain);
    hide Exposed, AfterRequest, Answers, FailsOnce, Run, Accounts, Built, First, Both, Free, MemifsUp, Numbered, InOrder, Equipped;
    RunMore(n', START, [Request(j), Request(j)], Request(j));
    RequestStored(n', w, j);
    Builds(c', StateOf(w, j), chain, 2);
    BothTwo(c', StateOf(w, j).m.sockets, AfterRequest(c', StateOf(w, j), chain).0, chain);
    NoAccounts(AfterStep(n', w, Request(j)), j);
  }

  /** With memif on both sides there are no tunnels to be in the way. */
  lemma BothFree(c: Config, o: Oracle, s: State, chain: seq<Element>)
    requires Exposed(c, chain) && Both(c, chain)
    ensures var c' := c.(o := o);
            !c'.keepsUsed && NeverFails(c'.d) && Equipped(c') && Free(c', s) && Both(c', chain) && First(c', chain).Some?
  {
    SameMakers(c, o, chain);
    SidesAre(c, chain);
    SidesAreMemif(c, chain);
    var x := First(c, chain).value;
    hide SocketSidesOf, First, Both;
    forall side
      ensures c.conn(side).mechanism.MemifMech?
    {
      assert side == x || side == !x;
    }
  }

  lemma BothTwo(c: Config, recs: map<bool, Socket>, s: State, chain: seq<Element>)
    requires Both(c, chain) && First(c, chain).Some? && Numbered(c, chain, recs) && Built(c, recs, s, chain, 2)
    ensures forall x :: x in LiveSockets(s.m.sockets) && LiveSockets(s.m.sockets)[x] == 2
  {
    var x := First(c, chain).value;
    hide First, Both, FileOf, MemifsUp;
    assert !x in recs.Keys;
    assert {2} - {2} == {};
    assert SecondId(recs, !x, 2) == 2;
    hide SecondId;
    forall y
      ensures y in s.m.sockets && s.m.sockets[y].isAdd && s.m.sockets[y].id == 2
    {
      assert y == x || y == !x;
    }
  }

  lemma NoAccounts(w: World, j: nat)
    requires j in w.md && forall x :: x in LiveSockets(w.md[j].sockets) && LiveSockets(w.md[j].sockets)[x] == 2
    ensures !Accounts(EMPTY, w)
  {
    var all := Joined(Sockets(w.md));
    hide Joined, LiveSockets;
    assert all[(j, true)] == all[(j, false)];
  }

  /** No tunnel of the one connection is one of the other. */
  ghost predicate TunnelsApart(c: Config, c': Config) {
    forall x, y :: c.conn(x).mechanism.VxlanMech? && c'.conn(y).mechanism.VxlanMech? ==>
      TunnelOf(c.conn(x).mechanism, x) != TunnelOf(c'.conn(y).mechanism, y)
  }

  /** With another connection up, whose socket has got the old number, a close takes that socket away. */
  lemma TwoConnectionsCollide(n: Net, j: nat, k: nat) returns (o: Oracle)
    requires Exposed(ConfigOf(n, j), n.chain(j)) && !Both(ConfigOf(n, j), n.chain(j)) && n.o == WILLING && j != k
    requires Exposed(ConfigOf(n, k), n.chain(k)) && !Both(ConfigOf(n, k), n.chain(k))
    requires TunnelsApart(ConfigOf(n, j), ConfigOf(n, k))
    ensures !Accounts(EMPTY, Run(n.(o := o), START, [Request(j), Request(j)] + [Request(k)] + [Close(j)]))
  {
    var f := TwoRequests(n, j, 1);
    o := FailsOnce(f, 1);
    var n' := n.(o := o);
    var c, c', w := ConfigOf(n', j), ConfigOf(n', k), Run(n', START, [Request(j), Request(j)]);
    assert Answers(o, f + 1, 1);
    SameMakers(ConfigOf(n, j), o, n.chain(j));
    SameMakers(ConfigOf(n, k), o, n.chain(k));
    OthersFree(ConfigOf(n, j), ConfigOf(n, k), o, StateOf(w, j), StateOf(w, k), n.chain(j));
    hide AfterRequest, AfterClose, Answers, FailsOnce, Run, Accounts, Built, First, Both, Free, Numbered, InOrder, Equipped, TunnelsApart;
    RunMore(n', START, [Request(j), Request(j)], Request(k));
    RunMore(n', START, [Request(j), Request(j)] + [Request(k)], Close(j));
    RequestStored(n', w, k);
    Builds(c', StateOf(w, k), n.chain(k), 1);
    BuiltOne(c', AfterRequest(c', StateOf(w, k), n.chain(k)).0, n.chain(k));
    var w3 := AfterStep(n', w, Request(k));
    StaleTakes(c, StateOf(w3, j), n.chain(j));
    NobodysSocket(AfterStep(n', w3, Close(j)), k);
  }

  /** What the first connection has left is not in the way of the second one. */
  lemma OthersFree(c: Config, c': Config, o: Oracle, s: State, s': State, chain: seq<Element>)
    requires Equipped(c') && TunnelsApart(c, c') && OnlyRecords(c.(o := o), s, chain) && s'.v == s.v
    ensures Equipped(c'.(o := o)) && Free(c'.(o := o), s')
  {
    forall i | i in s.v.ifs && s.v.ifs[i].Tunnel?
      ensures exists x :: c.conn(x).mechanism.VxlanMech? && s.v.ifs[i] == TunnelOf(c.conn(x).mechanism, x)
    {
      hide TunnelOf, Numbered, LiveSockets;
      assert i in s.m.ifindex.Values;
      var x := KeyOfValue(s.m.ifindex, i);
      assert c.conn(x).mechanism.VxlanMech? && TunnelFits(c.conn(x).mechanism, x, s.v.ifs, i);
    }
    TunnelsAre(c');
    hide TunnelOf, OnlyRecords;
  }

  lemma BuiltOne(c: Config, s: State, chain: seq<Element>)
    requires First(c, chain).Some? && !Both(c, chain) && Built(c, map[], s, chain, 1)
    ensures exists y :: y in LiveSockets(s.m.sockets) && LiveSockets(s.m.sockets)[y] == 1
  {
    assert First(c, chain).value in LiveSockets(s.m.sockets);
    hide First, Both, FileOf, MemifsUp;
  }

  lemma NobodysSocket(w: World, k: nat)
    requires k in w.md && 1 !in w.v.sockets && exists y :: y in LiveSockets(w.md[k].sockets) && LiveSockets(w.md[k].sockets)[y] == 1
    ensures !Accounts(EMPTY, w)
  {
    var y :| y in LiveSockets(w.md[k].sockets) && LiveSockets(w.md[k].sockets)[y] == 1;
    var all := Joined(Sockets(w.md));
    hide Joined, LiveSockets;
    assert all[(k, y)] == 1;
  }

  lemma StaleTakes(c: Config, s: State, chain: seq<Element>)
    requires !c.keepsUsed && NeverFails(c.d) && First(c, chain).Some? && !Both(c, chain)
    requires MemifsUp(c, s) == {} && Numbered(c, chain, s.m.sockets)
    ensures 1 !in AfterClose(c, s, chain).v.sockets
  {
    SidesAre(c, chain);
    hide First, Both, SocketSidesOf, AfterClose, MemifsUp;
    assert forall x :: x in s.m.sockets ==> x in s.m.sockets.Keys;
    CloseTakes(c, s, chain, 1);
  }

  // ---- Exactly when ----

  ghost predicate MakesSome(n: Net, k: nat) {
    exists x :: Makes(n, k, x)
  }

  /** Two connections that make sockets can be served, and at one time. */
  ghost predicate Compatible(n: Net) {
    forall j, k :: j != k && MakesSome(n, j) && MakesSome(n, k) ==>
      Equipped(ConfigOf(n, j)) && TunnelsApart(ConfigOf(n, j), ConfigOf(n, k))
  }

  ghost predicate AlwaysAccounts(n: Net) {
    forall o, w, actions :: StartsFresh(w) ==> Accounts(w.v, Run(n.(o := o), w, actions))
  }

  /** The accounts hold in every run, whatever fails and whichever numbers VPP gives, exactly if VPP keeps the sockets that
      are used or at most one side of one connection makes sockets. */
  lemma AccountsIff(n: Net)
    requires NeverFails(n.d) && Compatible(n)
    ensures AlwaysAccounts(n) <==> Harmless(n)
  {
    hide AlwaysAccounts, Harmless, Compatible;
    if Harmless(n) {
      HarmlessAccounts(n);
    } else {
      HarmfulFails(n);
    }
  }

  lemma HarmlessAccounts(n: Net)
    requires NeverFails(n.d) && Harmless(n)
    ensures AlwaysAccounts(n)
  {
    forall o, w, actions | StartsFresh(w)
      ensures Accounts(w.v, Run(n.(o := o), w, actions))
    {
      assert forall k, x :: Makes(n.(o := o), k, x) == Makes(n, k, x);
      hide Makes, StartsFresh, Run, Accounts, OneInOrder;
      RunKeeps(n.(o := o), w, actions);
    }
  }

  lemma NotAlways(n: Net, o: Oracle, actions: seq<Action>)
    requires !Accounts(EMPTY, Run(n.(o := o), START, actions))
    ensures !AlwaysAccounts(n)
  {
    assert StartsFresh(START);
    hide StartsFresh, Run, Accounts;
  }

  lemma MakersAre(n: Net, k: nat)
    ensures MakesSome(n, k) <==> First(ConfigOf(n, k), n.chain(k)).Some?
    ensures Both(ConfigOf(n, k), n.chain(k)) <==> Makes(n, k, true) && Makes(n, k, false)
    ensures Both(ConfigOf(n, k), n.chain(k)) ==> Equipped(ConfigOf(n, k))
  {
    var c, chain := ConfigOf(n, k), n.chain(k);
    SidesAre(c, chain);
    SidesAreMemif(c, chain);
    if Both(c, chain) { BothHasFirst(c, chain); }
    hide First, Both;
    var x := First(c, chain);
    if x.Some? {
      assert Makes(n, k, x.value);
      assert x.value == true || !x.value == true;
    }
  }

  /** Whose chain it is and who makes what is the same for a VPP that is willing. */
  lemma Willing(n: Net, k: nat)
    requires NeverFails(n.d) && !n.keepsUsed && MakesSome(n, k) && Equipped(ConfigOf(n, k))
    ensures var c := ConfigOf(n.(o := WILLING), k);
            Exposed(c, n.chain(k)) && Both(c, n.chain(k)) == Both(ConfigOf(n, k), n.chain(k))
  {
    MakersAre(n, k);
    SameMakers(ConfigOf(n, k), WILLING, n.chain(k));
    hide First, Both;
  }

  lemma OneSpoils(n: Net, j: nat)
    requires NeverFails(n.d) && !n.keepsUsed && Both(ConfigOf(n, j), n.chain(j))
    ensures !AlwaysAccounts(n)
  {
    MakersAre(n, j);
    BothHasFirst(ConfigOf(n, j), n.chain(j));
    Willing(n, j);
    hide Exposed, Both, First, AlwaysAccounts, Equipped;
    var n' := n.(o := WILLING);
    var o := OneConnectionCollides(n', j);
    assert n'.(o := o) == n.(o := o);
    NotAlways(n, o, [Request(j), Request(j)] + [Request(j)]);
  }

  lemma TwoSpoil(n: Net, j: nat, k: nat)
    requires NeverFails(n.d) && !n.keepsUsed && j != k && MakesSome(n, j) && MakesSome(n, k) && Compatible(n)
    requires !Both(ConfigOf(n, j), n.chain(j)) && !Both(ConfigOf(n, k), n.chain(k))
    ensures !AlwaysAccounts(n)
  {
    assert Equipped(ConfigOf(n, j)) && Equipped(ConfigOf(n, k)) && TunnelsApart(ConfigOf(n, j), ConfigOf(n, k));
    hide Exposed, Both, First, AlwaysAccounts, Equipped, Compatible, MakesSome;
    Willing(n, j);
    Willing(n, k);
    var n' := n.(o := WILLING);
    var o := TwoConnectionsCollide(n', j, k);
    assert n'.(o := o) == n.(o := o);
    NotAlways(n, o, [Request(j), Request(j)] + [Request(k)] + [Close(j)]);
  }

  lemma HarmfulFails(n: Net)
    requires NeverFails(n.d) && Compatible(n) && !Harmless(n)
    ensures !AlwaysAccounts(n)
  {
    var j, x, k, y :| Makes(n, j, x) && Makes(n, k, y) && !(j == k && x == y);
    hide AlwaysAccounts, Compatible, Makes, Both;
    MakersAre(n, j);
    MakersAre(n, k);
    if Both(ConfigOf(n, j), n.chain(j)) {
      OneSpoils(n, j);
    } else if Both(ConfigOf(n, k), n.chain(k)) {
      OneSpoils(n, k);
    } else {
      assert j != k by { if x {} else {} }
      TwoSpoil(n, j, k);
    }
  }
}
