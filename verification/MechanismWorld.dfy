/** Any number of connections over one VPP, each with its own chain and its own metadata. Requests and closes come one
    after another in any order. The metadata of a connection live from its first successful request to its close, which
    is what the metadata element at the front of every chain does. */
module MechanismWorld {
  import opened Wrappers
  import opened Vpp
  import opened MechanismChain

  /** What does not change in a run. Connections are numbered. */
  datatype Net = Net(o: Oracle, d: Oracle, isKey: string -> bool, keepsUsed: bool,
                     conn: nat -> bool -> Connection, chain: nat -> seq<Element>)

  datatype World = World(v: VppState, md: map<nat, Metadata>, calls: nat, undos: nat)

  datatype Action = Request(id: nat) | Close(id: nat)

  function ConfigOf(n: Net, k: nat): Config {
    Config(n.o, n.d, n.conn(k), n.isKey, n.keepsUsed)
  }

  function MetadataOf(w: World, k: nat): Metadata {
    if k in w.md then w.md[k] else NO_METADATA
  }

  function StateOf(w: World, k: nat): State {
    State(w.v, MetadataOf(w, k), w.calls, w.undos)
  }

  function AfterStep(n: Net, w: World, a: Action): World {
    match a
    case Request(k) =>
      var (s, ok) := AfterRequest(ConfigOf(n, k), StateOf(w, k), n.chain(k));
      World(s.v, if ok || k in w.md then w.md[k := s.m] else w.md, s.calls, s.undos)
    case Close(k) =>
      var s := AfterClose(ConfigOf(n, k), StateOf(w, k), n.chain(k));
      World(s.v, w.md - {k}, s.calls, s.undos)
  }

  function Run(n: Net, w: World, actions: seq<Action>): World {
    if actions == [] then w else AfterStep(n, Run(n, w, actions[..|actions| - 1]), actions[|actions| - 1])
  }

  // ---- Shares ----

  /** What all connections hold together. */
  function Joined<S(!new)>(parts: map<nat, map<S, nat>>): (all: map<(nat, S), nat>)
    ensures forall x: (nat, S) :: x in all <==> x.0 in parts && x.1 in parts[x.0]
    ensures forall x: (nat, S) :: x in all ==> all[x] == parts[x.0][x.1]
  {
    map x | x in (set k, a | k in parts && a in parts[k] :: (k, a)) :: parts[x.0][x.1]
  }

  function Share<S>(parts: map<nat, map<S, nat>>, k: nat): map<S, nat> {
    if k in parts then parts[k] else map[]
  }

  function Rest<S, V>(live: map<nat, V>, held: map<S, nat>): map<nat, V> {
    live - held.Values
  }

  /** What is alive is the share of one connection and the rest. */
  lemma ShareAccounted<S(!new), V(!new)>(base: map<nat, V>, live: map<nat, V>, parts: map<nat, map<S, nat>>, k: nat)
    requires Accounted(base, live, Joined(parts))
    ensures Accounted(Rest(live, Share(parts, k)), live, Share(parts, k))
    ensures forall i :: i in base ==> i in Rest(live, Share(parts, k)) && Rest(live, Share(parts, k))[i] == base[i]
  {
    hide Joined;
    var held := Share(parts, k);
    forall a | a in held
      ensures (k, a) in Joined(parts) && Joined(parts)[(k, a)] == held[a]
    {
    }
    forall i | i in held.Values
      ensures i !in base
    {
      var a := KeyOfValue(held, i);
    }
  }

  /** One connection's share changes and the rest does not. */
  lemma ShareReplaced<S(!new), V(!new)>(base: map<nat, V>, live: map<nat, V>, live': map<nat, V>,
                                        parts: map<nat, map<S, nat>>, k: nat, held': map<S, nat>)
    requires Accounted(base, live, Joined(parts)) && Accounted(Rest(live, Share(parts, k)), live', held')
    ensures Accounted(base, live', Joined(parts[k := held']))
    ensures Rest(live', held') == Rest(live, Share(parts, k))
  {
    hide Joined, Accounted;
    ShareAccounted(base, live, parts, k);
    forall x | x in Joined(parts[k := held'])
      ensures Placed(live, live', parts, k, held', x)
    {
      SlotPlaced(base, live, live', parts, k, held', x);
    }
    forall i | i in live' && i !in base
      ensures i in Joined(parts[k := held']).Values
    {
      Covered(base, live, live', parts, k, held', i);
    }
    ReplacedAccounted(base, live, live', parts, k, held');
    RestAgain(Rest(live, Share(parts, k)), live', held');
  }

  lemma RestAgain<S(!new), V(!new)>(rest: map<nat, V>, live: map<nat, V>, held: map<S, nat>)
    requires Accounted(rest, live, held)
    ensures Rest(live, held) == rest
  {
  }

  /** A slot of the new whole: the connection's own, or one whose thing is in the rest. */
  ghost predicate Placed<S(!new), V>(live: map<nat, V>, live': map<nat, V>, parts: map<nat, map<S, nat>>, k: nat,
                                     held': map<S, nat>, x: (nat, S)) {
    var all, all', rest := Joined(parts), Joined(parts[k := held']), Rest(live, Share(parts, k));
    && x in all'
    && if x.0 == k then x.1 in held' && all'[x] == held'[x.1]
       else x in all && all'[x] == all[x] && all[x] in rest && all[x] in live' && all[x] !in held'.Values
  }

  lemma SlotPlaced<S(!new), V(!new)>(base: map<nat, V>, live: map<nat, V>, live': map<nat, V>, parts: map<nat, map<S, nat>>,
                                     k: nat, held': map<S, nat>, x: (nat, S))
    requires Accounted(base, live, Joined(parts)) && Accounted(Rest(live, Share(parts, k)), live', held')
    requires x in Joined(parts[k := held'])
    ensures Placed(live, live', parts, k, held', x)
  {
    hide Joined;
    if x.0 != k {
      OthersInRest(base, live, parts, k, x);
      NotHeld(Rest(live, Share(parts, k)), live', held', Joined(parts)[x]);
    }
  }

  lemma NotHeld<S(!new), V(!new)>(base: map<nat, V>, live: map<nat, V>, held: map<S, nat>, i: nat)
    requires Accounted(base, live, held) && i in base
    ensures i in live && live[i] == base[i] && i !in held.Values
  {
  }

  lemma ReplacedAccounted<S(!new), V(!new)>(base: map<nat, V>, live: map<nat, V>, live': map<nat, V>,
                                            parts: map<nat, map<S, nat>>, k: nat, held': map<S, nat>)
    requires Accounted(base, live, Joined(parts)) && Accounted(Rest(live, Share(parts, k)), live', held')
    requires forall x :: x in Joined(parts[k := held']) ==> Placed(live, live', parts, k, held', x)
    requires forall i :: i in live' && i !in base ==> i in Joined(parts[k := held']).Values
    requires forall i :: i in base ==> i in Rest(live, Share(parts, k)) && Rest(live, Share(parts, k))[i] == base[i]
    ensures Accounted(base, live', Joined(parts[k := held']))
  {
    hide Joined, Rest, Share;
    var all', rest := Joined(parts[k := held']), Rest(live, Share(parts, k));
    forall x | x in all'
      ensures all'[x] in live' && all'[x] !in base
    {
      assert Placed(live, live', parts, k, held', x);
      if x.0 == k {
        assert all'[x] !in rest;
      } else {
        assert Joined(parts)[x] !in base;
      }
    }
    forall x, y | x in all' && y in all' && all'[x] == all'[y]
      ensures x == y
    {
      PlacedOnce(base, live, live', parts, k, held', x, y);
    }
  }

  lemma PlacedOnce<S(!new), V(!new)>(base: map<nat, V>, live: map<nat, V>, live': map<nat, V>, parts: map<nat, map<S, nat>>,
                                     k: nat, held': map<S, nat>, x: (nat, S), y: (nat, S))
    requires Accounted(base, live, Joined(parts)) && Accounted(Rest(live, Share(parts, k)), live', held')
    requires Placed(live, live', parts, k, held', x) && Placed(live, live', parts, k, held', y)
    requires Joined(parts[k := held'])[x] == Joined(parts[k := held'])[y]
    ensures x == y
  {
    hide Joined, Rest, Share;
    assert x.0 == k ==> held'[x.1] in held'.Values;
    assert y.0 == k ==> held'[y.1] in held'.Values;
  }

  lemma OthersInRest<S(!new), V(!new)>(base: map<nat, V>, live: map<nat, V>, parts: map<nat, map<S, nat>>, k: nat, x: (nat, S))
    requires Accounted(base, live, Joined(parts)) && x in Joined(parts) && x.0 != k
    ensures Joined(parts)[x] in Rest(live, Share(parts, k))
  {
    hide Joined;
    var held, all := Share(parts, k), Joined(parts);
    forall a | a in held
      ensures held[a] != all[x]
    {
      assert (k, a) in all && all[(k, a)] == held[a];
    }
  }

  lemma Covered<S(!new), V(!new)>(base: map<nat, V>, live: map<nat, V>, live': map<nat, V>,
                                  parts: map<nat, map<S, nat>>, k: nat, held': map<S, nat>, i: nat)
    requires Accounted(base, live, Joined(parts)) && Accounted(Rest(live, Share(parts, k)), live', held')
    requires i in live' && i !in base
    ensures i in Joined(parts[k := held']).Values
  {
    hide Joined;
    var all, all' := Joined(parts), Joined(parts[k := held']);
    if i in held'.Values {
      var a := KeyOfValue(held', i);
      assert all'[(k, a)] == i;
    } else {
      var x := KeyOfValue(all, i);
      assert i !in Share(parts, k).Values;
      assert forall a :: a in Share(parts, k) ==> Share(parts, k)[a] in Share(parts, k).Values;
      assert all'[x] == i;
    }
  }

  lemma SharesJoined<S(!new)>(parts: map<nat, map<S, nat>>, parts': map<nat, map<S, nat>>, k: nat)
    requires forall j :: j != k ==> Share(parts', j) == Share(parts, j)
    ensures Joined(parts') == Joined(parts[k := Share(parts', k)])
  {
    var all, all' := Joined(parts[k := Share(parts', k)]), Joined(parts');
    hide Joined;
    forall x: (nat, S)
      ensures x in all' <==> x in all
      ensures x in all ==> all'[x] == all[x]
    {
      assert x.0 != k ==> Share(parts', x.0) == Share(parts, x.0);
    }
  }

  // ---- Accounts ----

  function Ifs(md: map<nat, Metadata>): map<nat, map<bool, nat>> {
    map k | k in md :: md[k].ifindex
  }

  function Peers(md: map<nat, Metadata>): map<nat, map<PeerKey, nat>> {
    map k | k in md :: md[k].peers
  }

  function Sockets(md: map<nat, Metadata>): map<nat, map<bool, nat>> {
    map k | k in md :: LiveSockets(md[k].sockets)
  }

  /** Every interface, peer and socket was there before or is held by one connection, once. */
  ghost predicate Accounts(base: VppState, w: World) {
    && Accounted(base.ifs, w.v.ifs, Joined(Ifs(w.md)))
    && Accounted(base.peers, w.v.peers, Joined(Peers(w.md)))
    && Accounted(base.sockets, w.v.sockets, Joined(Sockets(w.md)))
  }

  /** What VPP has besides the things of one connection. */
  function RestOf(w: World, k: nat): VppState {
    var m := MetadataOf(w, k);
    VppState(Rest(w.v.ifs, m.ifindex), Rest(w.v.peers, m.peers), Rest(w.v.sockets, LiveSockets(m.sockets)))
  }

  /** One connection among the rest. */
  ghost predicate OneInOrder(n: Net, w: World, k: nat) {
    InOrder(ConfigOf(n, k), RestOf(w, k), StateOf(w, k)) && OwnOnly(n, w, k)
  }

  /** A connection holds only what its chain makes. */
  ghost predicate OwnOnly(n: Net, w: World, k: nat) {
    && (forall t :: Holds(MetadataOf(w, k), t) ==> MindsAny(ConfigOf(n, k), n.chain(k), t))
    && MetadataOf(w, k).sockets.Keys <= SocketSidesOf(ConfigOf(n, k), n.chain(k))
  }

  ghost predicate WorldInOrder(n: Net, base: VppState, w: World) {
    Accounts(base, w) && forall k :: OneInOrder(n, w, k)
  }

  predicate Makes(n: Net, k: nat, isClient: bool) {
    isClient in SocketSidesOf(ConfigOf(n, k), n.chain(k))
  }

  /** No two sides make sockets, of one connection or of two. */
  ghost predicate OneMaker(n: Net) {
    forall j, x, k, y :: Makes(n, j, x) && Makes(n, k, y) ==> j == k && x == y
  }

  ghost predicate Harmless(n: Net) {
    n.keepsUsed || OneMaker(n)
  }

  lemma SharesAre(w: World, k: nat)
    ensures Share(Ifs(w.md), k) == MetadataOf(w, k).ifindex
    ensures Share(Peers(w.md), k) == MetadataOf(w, k).peers
    ensures Share(Sockets(w.md), k) == LiveSockets(MetadataOf(w, k).sockets)
  {
    assert LiveSockets(map[]) == map[];
  }

  /** The things of another connection are in the rest. */
  ghost predicate Apart(w: World, j: nat, k: nat) {
    && (forall x :: x in MetadataOf(w, j).ifindex ==> MetadataOf(w, j).ifindex[x] in RestOf(w, k).ifs)
    && (forall x :: x in LiveSockets(MetadataOf(w, j).sockets) ==> LiveSockets(MetadataOf(w, j).sockets)[x] in RestOf(w, k).sockets)
  }

  lemma AreApart(base: VppState, w: World, j: nat, k: nat)
    requires Accounts(base, w) && j != k
    ensures Apart(w, j, k)
  {
    SharesAre(w, j);
    SharesAre(w, k);
    hide Accounted, Rest, Joined, LiveSockets, Ifs, Sockets;
    forall x | x in MetadataOf(w, j).ifindex
      ensures MetadataOf(w, j).ifindex[x] in RestOf(w, k).ifs
    {
      SlotInRest(base.ifs, w.v.ifs, Ifs(w.md), j, k, x);
    }
    forall x | x in LiveSockets(MetadataOf(w, j).sockets)
      ensures LiveSockets(MetadataOf(w, j).sockets)[x] in RestOf(w, k).sockets
    {
      SlotInRest(base.sockets, w.v.sockets, Sockets(w.md), j, k, x);
    }
  }

  lemma SlotInRest<S(!new), V(!new)>(base: map<nat, V>, live: map<nat, V>, parts: map<nat, map<S, nat>>, j: nat, k: nat, x: S)
    requires Accounted(base, live, Joined(parts)) && j != k && x in Share(parts, j)
    ensures Share(parts, j)[x] in Rest(live, Share(parts, k))
  {
    OthersInRest(base, live, parts, k, (j, x));
    hide Joined, Rest;
  }

  // ---- One connection's turn ----

  /** Connection `k` has had its turn: it is in order again, the rest of VPP is as it was, and the others' metadata are. */
  ghost predicate Turn(n: Net, base: VppState, w: World, w': World, k: nat) {
    && Accounts(base, w) && Accounts(base, w') && Harmless(n) && RestOf(w', k) == RestOf(w, k)
    && (forall j :: j != k ==> MetadataOf(w', j) == MetadataOf(w, j))
    && OneInOrder(n, w, k) && OneInOrder(n, w', k)
  }

  lemma RestKept(n: Net, base: VppState, w: World, w': World, k: nat)
    requires Turn(n, base, w, w', k)
    ensures forall i :: i in RestOf(w, k).ifs ==> i in w.v.ifs && i in w'.v.ifs && w'.v.ifs[i] == w.v.ifs[i]
    ensures forall i :: i in RestOf(w, k).sockets ==> i in w.v.sockets && i in w'.v.sockets
    ensures TunnelsDiffer(w'.v.ifs)
  {
  }

  lemma OtherIfs(n: Net, base: VppState, w: World, w': World, k: nat, j: nat)
    requires Turn(n, base, w, w', k) && j != k && OneInOrder(n, w, j)
    ensures IfsInOrder(ConfigOf(n, j), RestOf(w', j).ifs, w'.v.ifs, MetadataOf(w', j).ifindex)
    ensures UsesOwn(ConfigOf(n, j), StateOf(w', j))
  {
    AreApart(base, w, j, k);
    RestKept(n, base, w, w', k);
    SharesAre(w', j);
    ShareAccounted(base.ifs, w'.v.ifs, Ifs(w'.md), j);
    var c, m := ConfigOf(n, j), MetadataOf(w, j);
    SameFits(c, w.v.ifs, w'.v.ifs, m.ifindex);
    SameUses(c, StateOf(w, j), StateOf(w', j));
    hide Accounted, Joined, TunnelOf, RestOf, Rest, Turn;
  }

  lemma SameFits(c: Config, ifs: map<nat, Device>, ifs': map<nat, Device>, ifindex: map<bool, nat>)
    requires TunnelsFit(c, ifs, ifindex) && DevicesFit(c, ifs, ifindex)
    requires forall x :: x in ifindex ==> ifindex[x] in ifs && ifindex[x] in ifs' && ifs'[ifindex[x]] == ifs[ifindex[x]]
    ensures TunnelsFit(c, ifs', ifindex) && DevicesFit(c, ifs', ifindex)
  {
    hide TunnelOf;
  }

  lemma SameUses(c: Config, s: State, s': State)
    requires UsesOwn(c, s) && s'.m == s.m
    requires forall x :: x in s.m.ifindex ==>
      s.m.ifindex[x] in s.v.ifs && s.m.ifindex[x] in s'.v.ifs && s'.v.ifs[s.m.ifindex[x]] == s.v.ifs[s.m.ifindex[x]]
    ensures UsesOwn(c, s')
  {
  }

  /** What uses a socket now either did before and is not the connection's, or is the connection's and its socket is. */
  lemma UserOf(n: Net, base: VppState, w: World, w': World, k: nat, i: nat)
    requires Turn(n, base, w, w', k) && i in w'.v.ifs && w'.v.ifs[i].MemifInterface?
    ensures var id := w'.v.ifs[i].socketID;
            if i in RestOf(w, k).ifs then i in w.v.ifs && w.v.ifs[i] == w'.v.ifs[i] && id in RestOf(w, k).sockets && id in w'.v.sockets
            else id in w'.v.sockets && id !in RestOf(w, k).sockets
  {
    RestKept(n, base, w, w', k);
    var m, c := MetadataOf(w', k), ConfigOf(n, k);
    if i !in RestOf(w, k).ifs {
      assert i in m.ifindex.Values;
      var x := KeyOfValue(m.ifindex, i);
      assert c.conn(x).mechanism.MemifMech?;
      assert LiveSockets(m.sockets)[x] == w'.v.ifs[i].socketID;
    }
  }

  lemma OtherMemifs(n: Net, base: VppState, w: World, w': World, k: nat, j: nat)
    requires Turn(n, base, w, w', k) && j != k && OneInOrder(n, w, j)
    ensures MemifsFit(RestOf(w', j))
  {
    AreApart(base, w, j, k);
    assert MemifsFit(RestOf(w, j)) && MetadataOf(w', j) == MetadataOf(w, j);
    var held := LiveSockets(MetadataOf(w, j).sockets);
    forall id | id in held.Values
      ensures id in RestOf(w, k).sockets
    {
      var x := KeyOfValue(held, id);
    }
    forall i | i in RestOf(w', j).ifs && RestOf(w', j).ifs[i].MemifInterface?
      ensures RestOf(w', j).ifs[i].socketID in RestOf(w', j).sockets
    {
      hide Turn, OneInOrder, LiveSockets, MemifsFit;
      UserOf(n, base, w, w', k, i);
      if i in RestOf(w, k).ifs { MemifsFitAt(RestOf(w, j), i); }
    }
  }

  lemma MemifsFitAt(v: VppState, i: nat)
    requires MemifsFit(v) && i in v.ifs && v.ifs[i].MemifInterface?
    ensures v.ifs[i].socketID in v.sockets
  {
  }

  /** A socket that is not of the rest is the connection's, and its memif interface uses it. */
  lemma UsedByOwner(n: Net, base: VppState, w: World, w': World, k: nat, id: nat)
    requires Turn(n, base, w, w', k) && id in w'.v.sockets && id !in RestOf(w, k).sockets
    ensures exists i :: i in w'.v.ifs && i !in RestOf(w, k).ifs && w'.v.ifs[i] == MemifInterface(id)
  {
    var m, c := MetadataOf(w', k), ConfigOf(n, k);
    assert RestOf(w', k) == RestOf(w, k);
    assert id in LiveSockets(m.sockets).Values;
    var x := KeyOfValue(LiveSockets(m.sockets), id);
    assert c.conn(x).mechanism.MemifMech? && x in m.ifindex;
    assert m.ifindex[x] in m.ifindex.Values;
  }

  /** An interface that used a socket of the rest still does. */
  lemma StillUses(n: Net, base: VppState, w: World, w': World, k: nat, i: nat)
    requires Turn(n, base, w, w', k) && i in w.v.ifs && w.v.ifs[i].MemifInterface? && w.v.ifs[i].socketID in RestOf(w, k).sockets
    ensures i in w'.v.ifs && w'.v.ifs[i] == w.v.ifs[i]
  {
    RestKept(n, base, w, w', k);
    UserOf(n, base, w, w, k, i);
  }

  lemma SameMetadata(n: Net, base: VppState, w: World, w': World, k: nat, j: nat)
    requires Turn(n, base, w, w', k) && j != k
    ensures MetadataOf(w', j) == MetadataOf(w, j) && MetadataOf(w, j).ifindex.Values <= RestOf(w, k).ifs.Keys
  {
    AreApart(base, w, j, k);
    forall i | i in MetadataOf(w, j).ifindex.Values
      ensures i in RestOf(w, k).ifs.Keys
    {
      var x := KeyOfValue(MetadataOf(w, j).ifindex, i);
    }
    hide Accounts, OneInOrder, Harmless;
  }

  lemma OtherStale(n: Net, base: VppState, w: World, w': World, k: nat, j: nat)
    requires Turn(n, base, w, w', k) && j != k && OneInOrder(n, w, j)
    ensures StaleFits(ConfigOf(n, j), RestOf(w', j), StateOf(w', j), {})
  {
    hide Turn, OneInOrder, LiveSockets, RestOf, MetadataOf;
    SameMetadata(n, base, w, w', k, j);
    var m := MetadataOf(w, j);
    forall x | x in m.sockets && !m.sockets[x].isAdd && m.sockets[x].id in w'.v.sockets
      ensures n.keepsUsed && (TakenBy(m, !x, m.sockets[x].id, {}) || MemifInterface(m.sockets[x].id) in RestOf(w', j).ifs.Values)
    {
      StaleAt(n, base, w, w', k, j, x);
    }
  }

  lemma StaleAt(n: Net, base: VppState, w: World, w': World, k: nat, j: nat, x: bool)
    requires Turn(n, base, w, w', k) && j != k && OneInOrder(n, w, j)
    requires var m := MetadataOf(w, j); x in m.sockets && !m.sockets[x].isAdd && m.sockets[x].id in w'.v.sockets
    ensures var m := MetadataOf(w, j);
            n.keepsUsed && (TakenBy(m, !x, m.sockets[x].id, {}) || MemifInterface(m.sockets[x].id) in RestOf(w', j).ifs.Values)
  {
    hide OneInOrder, LiveSockets, Turn, RestOf, MetadataOf;
    var m := MetadataOf(w, j);
    var id := m.sockets[x].id;
    if !n.keepsUsed {
      OneMakerOnly(n, base, w, w', k, j, x);
      WasStale(n, w, j, x);
    } else if id !in RestOf(w, k).sockets {
      UsedByOwner(n, base, w, w', k, id);
      var i :| i in w'.v.ifs && i !in RestOf(w, k).ifs && w'.v.ifs[i] == MemifInterface(id);
      OfOthers(n, base, w, w', k, j, i);
      assert RestOf(w', j).ifs[i] == MemifInterface(id);
    } else {
      RestKept(n, base, w, w', k);
      WasStale(n, w, j, x);
      if !TakenBy(m, !x, id, {}) {
        var i := KeyOfValue(RestOf(w, j).ifs, MemifInterface(id));
        StillThere(n, base, w, w', k, j, i);
        assert RestOf(w', j).ifs[i] == MemifInterface(id);
      }
    }
  }

  lemma WasStale(n: Net, w: World, j: nat, x: bool)
    requires OneInOrder(n, w, j)
    requires var m := MetadataOf(w, j); x in m.sockets && !m.sockets[x].isAdd && m.sockets[x].id in w.v.sockets
    ensures var m := MetadataOf(w, j);
            n.keepsUsed && (TakenBy(m, !x, m.sockets[x].id, {}) || MemifInterface(m.sockets[x].id) in RestOf(w, j).ifs.Values)
  {
    assert StaleFits(ConfigOf(n, j), RestOf(w, j), StateOf(w, j), {});
    hide OneInOrder, RestOf;
  }

  /** What the connection has made is not another one's. */
  lemma OfOthers(n: Net, base: VppState, w: World, w': World, k: nat, j: nat, i: nat)
    requires Turn(n, base, w, w', k) && j != k && i in w'.v.ifs && i !in RestOf(w, k).ifs
    ensures i in RestOf(w', j).ifs && RestOf(w', j).ifs[i] == w'.v.ifs[i]
  {
    hide Turn, LiveSockets, MetadataOf;
    SameMetadata(n, base, w, w', k, j);
  }

  lemma StillThere(n: Net, base: VppState, w: World, w': World, k: nat, j: nat, i: nat)
    requires Turn(n, base, w, w', k) && j != k && i in RestOf(w, j).ifs && RestOf(w, j).ifs[i].MemifInterface?
    requires RestOf(w, j).ifs[i].socketID in RestOf(w, k).sockets
    ensures i in RestOf(w', j).ifs && RestOf(w', j).ifs[i] == RestOf(w, j).ifs[i]
  {
    StillUses(n, base, w, w', k, i);
    assert MetadataOf(w', j) == MetadataOf(w, j);
    hide Turn, LiveSockets;
  }

  /** Where one connection makes sockets, another's turn changes none. */
  lemma OneMakerOnly(n: Net, base: VppState, w: World, w': World, k: nat, j: nat, x: bool)
    requires Turn(n, base, w, w', k) && j != k && OneInOrder(n, w, j) && x in MetadataOf(w, j).sockets && !n.keepsUsed
    ensures w'.v.sockets == w.v.sockets
  {
    assert OwnOnly(n, w, k) && OwnOnly(n, w', k) && RestOf(w', k) == RestOf(w, k);
    assert Makes(n, j, x);
    hide Turn, OneInOrder, OwnOnly, Makes, RestOf, MetadataOf;
    NoRecords(n, w, k);
    NoRecords(n, w', k);
  }

  lemma NoRecords(n: Net, w: World, k: nat)
    requires OwnOnly(n, w, k) && forall y :: !Makes(n, k, y)
    ensures RestOf(w, k).sockets == w.v.sockets
  {
    var sockets := MetadataOf(w, k).sockets;
    forall y
      ensures y !in sockets
    {
      assert !Makes(n, k, y);
    }
    hide OwnOnly, Makes;
    assert LiveSockets(sockets) == map[];
  }

  /** A connection's turn leaves every other one in order. */
  lemma OtherKeeps(n: Net, base: VppState, w: World, w': World, k: nat, j: nat)
    requires Turn(n, base, w, w', k) && j != k && OneInOrder(n, w, j)
    ensures OneInOrder(n, w', j)
  {
    hide *;
    OtherIfs(n, base, w, w', k, j);
    OtherMemifs(n, base, w, w', k, j);
    OtherStale(n, base, w, w', k, j);
    OtherRecords(n, base, w, w', k, j);
    SameMetadata(n, base, w, w', k, j);
    Assembled(n, w, w', j);
  }

  lemma Assembled(n: Net, w: World, w': World, j: nat)
    requires OneInOrder(n, w, j) && MetadataOf(w', j) == MetadataOf(w, j)
    requires IfsInOrder(ConfigOf(n, j), RestOf(w', j).ifs, w'.v.ifs, MetadataOf(w', j).ifindex)
    requires Accounted(RestOf(w', j).peers, w'.v.peers, MetadataOf(w', j).peers)
    requires SocketsInOrder(ConfigOf(n, j), RestOf(w', j).sockets, w'.v.sockets, MetadataOf(w', j).sockets)
    requires MemifsFit(RestOf(w', j)) && UsesOwn(ConfigOf(n, j), StateOf(w', j))
    requires StaleFits(ConfigOf(n, j), RestOf(w', j), StateOf(w', j), {})
    ensures OneInOrder(n, w', j)
  {
    hide Accounted, IfsInOrder, MemifsFit, StaleFits, UsesOwn, LiveSockets, KeysFit, LiveUsed, MindsAny, Holds, Rest, SocketsInOrder,
      SocketSidesOf, MetadataOf, RestOf;
  }

  lemma OtherRecords(n: Net, base: VppState, w: World, w': World, k: nat, j: nat)
    requires Turn(n, base, w, w', k) && j != k && OneInOrder(n, w, j)
    ensures Accounted(RestOf(w', j).peers, w'.v.peers, MetadataOf(w', j).peers)
    ensures SocketsInOrder(ConfigOf(n, j), RestOf(w', j).sockets, w'.v.sockets, MetadataOf(w', j).sockets)
  {
    SharesAre(w', j);
    ShareAccounted(base.peers, w'.v.peers, Peers(w'.md), j);
    ShareAccounted(base.sockets, w'.v.sockets, Sockets(w'.md), j);
    assert MetadataOf(w', j) == MetadataOf(w, j);
    SocketSides(ConfigOf(n, j), RestOf(w, j), StateOf(w, j));
    hide Turn, Accounted, Joined, LiveSockets, Rest, OneInOrder, Peers, Sockets;
  }

  lemma PoolTurn<S(!new), V(!new)>(base: map<nat, V>, live: map<nat, V>, live': map<nat, V>,
                                   parts: map<nat, map<S, nat>>, parts': map<nat, map<S, nat>>, k: nat)
    requires Accounted(base, live, Joined(parts)) && Accounted(Rest(live, Share(parts, k)), live', Share(parts', k))
    requires forall j :: j != k ==> Share(parts', j) == Share(parts, j)
    ensures Accounted(base, live', Joined(parts'))
    ensures Rest(live', Share(parts', k)) == Rest(live, Share(parts, k))
  {
    hide Accounted, Joined, Rest, Share;
    ShareReplaced(base, live, live', parts, k, Share(parts', k));
    SharesJoined(parts, parts', k);
  }

  /** Connection `k` is in order with the rest as it was, and the others' metadata have not changed. */
  ghost predicate Taken(n: Net, w: World, w': World, k: nat) {
    && InOrder(ConfigOf(n, k), RestOf(w, k), StateOf(w', k)) && OwnOnly(n, w', k)
    && forall j :: j != k ==> MetadataOf(w', j) == MetadataOf(w, j)
  }

  lemma TurnTaken(n: Net, base: VppState, w: World, w': World, k: nat)
    requires WorldInOrder(n, base, w) && Harmless(n) && Taken(n, w, w', k)
    ensures WorldInOrder(n, base, w')
  {
    IsTurn(n, base, w, w', k);
    hide Accounts, OneInOrder, Harmless, RestOf, MetadataOf, Taken;
    forall j
      ensures OneInOrder(n, w', j)
    {
      hide Turn;
      if j != k { OtherKeeps(n, base, w, w', k, j); }
    }
  }

  lemma IsTurn(n: Net, base: VppState, w: World, w': World, k: nat)
    requires WorldInOrder(n, base, w) && Harmless(n) && Taken(n, w, w', k)
    ensures Turn(n, base, w, w', k) && Accounts(base, w') && OneInOrder(n, w', k)
  {
    hide InOrder, Accounts, OwnOnly, RestOf, Harmless, MetadataOf;
    PoolsTurn(n, base, w, w', k);
    assert OneInOrder(n, w, k);
  }

  lemma PoolsTurn(n: Net, base: VppState, w: World, w': World, k: nat)
    requires Accounts(base, w) && InOrder(ConfigOf(n, k), RestOf(w, k), StateOf(w', k))
    requires forall j :: j != k ==> MetadataOf(w', j) == MetadataOf(w, j)
    ensures Accounts(base, w') && RestOf(w', k) == RestOf(w, k)
  {
    forall j
      ensures j != k ==> Share(Ifs(w'.md), j) == Share(Ifs(w.md), j)
      ensures j != k ==> Share(Peers(w'.md), j) == Share(Peers(w.md), j)
      ensures j != k ==> Share(Sockets(w'.md), j) == Share(Sockets(w.md), j)
    {
      SharesAre(w, j);
      SharesAre(w', j);
    }
    SharesAre(w, k);
    SharesAre(w', k);
    hide Accounted, Joined, Share, Rest, LiveSockets, Ifs, Peers, Sockets, MetadataOf;
    PoolTurn(base.ifs, w.v.ifs, w'.v.ifs, Ifs(w.md), Ifs(w'.md), k);
    PoolTurn(base.peers, w.v.peers, w'.v.peers, Peers(w.md), Peers(w'.md), k);
    PoolTurn(base.sockets, w.v.sockets, w'.v.sockets, Sockets(w.md), Sockets(w'.md), k);
  }

  lemma HarmlessAlone(n: Net, w: World, k: nat)
    requires Harmless(n) && OwnOnly(n, w, k)
    ensures Undisturbed(ConfigOf(n, k), SocketSidesOf(ConfigOf(n, k), n.chain(k)), MetadataOf(w, k).sockets)
  {
    assert Makes(n, k, true) && Makes(n, k, false) ==> n.keepsUsed;
  }

  lemma RequestTurn(n: Net, w: World, k: nat)
    requires OneInOrder(n, w, k) && Harmless(n) && NeverFails(n.d)
    ensures Taken(n, w, AfterStep(n, w, Request(k)), k)
  {
    var c, s, chain, w' := ConfigOf(n, k), StateOf(w, k), n.chain(k), AfterStep(n, w, Request(k));
    HarmlessAlone(n, w, k);
    RequestKeeps(c, RestOf(w, k), s, chain, SocketSidesOf(c, chain));
    hide InOrder, Holds, MindsAny, SocketSidesOf, Undisturbed, RestOf, AfterRequest, Harmless;
    var (s', ok) := AfterRequest(c, s, chain);
    if ok || k in w.md {
      SameInOrder(c, RestOf(w, k), s', StateOf(w', k));
    } else {
      NothingLeft(c, RestOf(w, k), s');
      NewInOrder(n, w, w', k);
    }
  }

  /** A connection without metadata among what is left of VPP. */
  lemma NewInOrder(n: Net, w: World, w': World, k: nat)
    requires OneInOrder(n, w, k) && w'.v == RestOf(w, k) && MetadataOf(w', k) == NO_METADATA
    requires TunnelsDiffer(w'.v.ifs)
    ensures InOrder(ConfigOf(n, k), RestOf(w, k), StateOf(w', k)) && OwnOnly(n, w', k)
  {
    FreshInOrder(ConfigOf(n, k), StateOf(w', k));
  }

  lemma CloseTurn(n: Net, w: World, k: nat)
    requires OneInOrder(n, w, k) && NeverFails(n.d)
    ensures Taken(n, w, AfterStep(n, w, Close(k)), k)
    ensures AfterStep(n, w, Close(k)).v == RestOf(w, k)
  {
    var c, s, chain, w' := ConfigOf(n, k), StateOf(w, k), n.chain(k), AfterStep(n, w, Close(k));
    CloseKeeps(c, RestOf(w, k), s, chain);
    hide InOrder, Holds, MindsAny, SocketSidesOf, RestOf, AfterClose;
    var s' := AfterClose(c, s, chain);
    NothingLeft(c, RestOf(w, k), s');
    InOrderDiffer(c, RestOf(w, k), s');
    NewInOrder(n, w, w', k);
  }

  lemma InOrderDiffer(c: Config, base: VppState, s: State)
    requires InOrder(c, base, s)
    ensures TunnelsDiffer(s.v.ifs)
  {
  }

  // ---- Runs ----

  lemma RunMore(n: Net, w: World, actions: seq<Action>, a: Action)
    ensures Run(n, w, actions + [a]) == AfterStep(n, Run(n, w, actions), a)
    ensures Run(n, w, []) == w && [] + [a] == [a]
  {
    assert (actions + [a])[..|actions|] == actions;
  }

  /** Before the first request. */
  ghost predicate StartsFresh(w: World) {
    w.md == map[] && TunnelsDiffer(w.v.ifs) && MemifsFit(w.v)
  }

  lemma StartInOrder(n: Net, w: World)
    requires StartsFresh(w)
    ensures WorldInOrder(n, w.v, w)
  {
    NobodyHas(w);
    hide OneInOrder, StartsFresh, Accounts;
    forall k
      ensures OneInOrder(n, w, k)
    {
      NobodyInOrder(n, w, k);
    }
  }

  lemma NobodyHolds<S(!new), V(!new)>(live: map<nat, V>, parts: map<nat, map<S, nat>>)
    ensures parts == map[] ==> Accounted(live, live, Joined(parts))
  {
    assert parts == map[] ==> Joined(parts) == map[];
    hide Joined;
  }

  lemma NobodyHas(w: World)
    requires StartsFresh(w)
    ensures Accounts(w.v, w)
  {
    NobodyHolds(w.v.ifs, Ifs(w.md));
    NobodyHolds(w.v.peers, Peers(w.md));
    NobodyHolds(w.v.sockets, Sockets(w.md));
    hide Joined, Accounted;
  }

  lemma NobodyInOrder(n: Net, w: World, k: nat)
    requires StartsFresh(w)
    ensures OneInOrder(n, w, k)
  {
    FreshInOrder(ConfigOf(n, k), StateOf(w, k));
    hide InOrder;
    assert LiveSockets(map[]) == map[];
    assert RestOf(w, k) == w.v;
  }

  /** In every run of any connections, whichever calls fail, each interface, peer and socket was there before or is held
      by one connection, once, and every connection is in order with the rest of VPP. */
  lemma {:induction false} RunKeeps(n: Net, w: World, actions: seq<Action>)
    requires StartsFresh(w) && Harmless(n) && NeverFails(n.d)
    ensures WorldInOrder(n, w.v, Run(n, w, actions))
  {
    hide WorldInOrder, StartsFresh, Harmless, AfterStep;
    if actions == [] {
      StartInOrder(n, w);
    } else {
      var last := |actions| - 1;
      RunKeeps(n, w, actions[..last]);
      StepKeeps(n, w.v, Run(n, w, actions[..last]), actions[last]);
    }
  }

  lemma StepKeeps(n: Net, base: VppState, w: World, a: Action)
    requires WorldInOrder(n, base, w) && Harmless(n) && NeverFails(n.d)
    ensures WorldInOrder(n, base, AfterStep(n, w, a))
  {
    hide OneInOrder, Accounts, Harmless, AfterStep, Taken;
    assert OneInOrder(n, w, a.id);
    if a.Request? { RequestTurn(n, w, a.id); } else { CloseTurn(n, w, a.id); }
    TurnTaken(n, base, w, AfterStep(n, w, a), a.id);
  }

  /** So a close, whenever it comes, takes away what the connection has and nothing else. */
  lemma CloseTakesOwn(n: Net, w: World, actions: seq<Action>, k: nat)
    requires StartsFresh(w) && Harmless(n) && NeverFails(n.d)
    ensures Run(n, w, actions + [Close(k)]).v == RestOf(Run(n, w, actions), k)
    ensures Run(n, w, actions + [Close(k)]).md == Run(n, w, actions).md - {k}
  {
    CloseForgets(n, Run(n, w, actions), k);
    hide OneInOrder, Accounts, StartsFresh, Harmless, RestOf, AfterStep, Run;
    RunKeeps(n, w, actions);
    RunMore(n, w, actions, Close(k));
    assert OneInOrder(n, Run(n, w, actions), k);
    CloseTurn(n, Run(n, w, actions), k);
  }

  lemma CloseForgets(n: Net, w: World, k: nat)
    ensures AfterStep(n, w, Close(k)).md == w.md - {k}
  {
    hide AfterClose;
  }

  /** A failed first request of a connection, whatever else is open and wherever it fails, leaves no trace in VPP and none in
      the metadata. */
  lemma FailedFirstRequest(n: Net, w: World, actions: seq<Action>, k: nat)
    requires StartsFresh(w) && Harmless(n) && NeverFails(n.d)
    requires var w1 := Run(n, w, actions); k !in w1.md && !AfterRequest(ConfigOf(n, k), StateOf(w1, k), n.chain(k)).1
    ensures var w1, w2 := Run(n, w, actions), Run(n, w, actions + [Request(k)]);
            w2.v == w1.v && w2.md == w1.md
  {
    var w1 := Run(n, w, actions);
    RunKeeps(n, w, actions);
    RunMore(n, w, actions, Request(k));
    hide StartsFresh, Run;
    assert OneInOrder(n, w1, k);
    NobodysRest(w1, k);
    FailedLeavesRest(n, w1, k);
  }

  lemma NobodysRest(w: World, k: nat)
    ensures k !in w.md ==> RestOf(w, k) == w.v
  {
    assert LiveSockets(map[]) == map[];
  }

  lemma FailedLeavesRest(n: Net, w: World, k: nat)
    requires OneInOrder(n, w, k) && Harmless(n) && NeverFails(n.d) && k !in w.md
    requires !AfterRequest(ConfigOf(n, k), StateOf(w, k), n.chain(k)).1
    ensures AfterStep(n, w, Request(k)).v == RestOf(w, k) && AfterStep(n, w, Request(k)).md == w.md
  {
    var c, s, chain := ConfigOf(n, k), StateOf(w, k), n.chain(k);
    HarmlessAlone(n, w, k);
    RequestKeeps(c, RestOf(w, k), s, chain, SocketSidesOf(c, chain));
    hide InOrder, Holds, MindsAny, SocketSidesOf, Undisturbed, RestOf, AfterRequest, Harmless;
    NothingLeft(c, RestOf(w, k), AfterRequest(c, s, chain).0);
  }

  /** And once every connection has been closed VPP is as it was. */
  lemma ClosedRestores(n: Net, w: World, actions: seq<Action>)
    requires StartsFresh(w) && Harmless(n) && NeverFails(n.d) && Run(n, w, actions).md == map[]
    ensures Run(n, w, actions).v == w.v
  {
    RunKeeps(n, w, actions);
    hide Run, OneInOrder, StartsFresh;
    var w' := Run(n, w, actions);
    assert Joined(Ifs(w'.md)) == map[] && Joined(Peers(w'.md)) == map[] && Joined(Sockets(w'.md)) == map[];
    hide Joined;
    NothingHeld(w.v.ifs, w'.v.ifs, Joined(Ifs(w'.md)));
    NothingHeld(w.v.peers, w'.v.peers, Joined(Peers(w'.md)));
    NothingHeld(w.v.sockets, w'.v.sockets, Joined(Sockets(w'.md)));
  }
}
