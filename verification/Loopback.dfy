/** Loopback interfaces shared by the connections of a network service and counted
    (pkg/networkservice/loopback). */
module Loopback {
  import opened Collections
  import opened Vpp

  type uint32 = x: int | 0 <= x < 0x1_0000_0000

  /** One side of a connection: client and server keep separate metadata. */
  datatype Side = Side(conn: string, isClient: bool)

  datatype Info = Info(swIfIndex: nat, count: uint32)

  /** The shared entries, the loopback each side holds in its metadata, VPP's loopbacks, the loopbacks
      whose deletion has failed, and the number of VPP calls. */
  datatype State = State(entries: map<string, Info>, held: map<Side, nat>, live: set<nat>, stranded: set<nat>, calls: nat)

  const INITIAL := State(map[], map[], {}, {}, 0)

  /** Addition and subtraction wrap around. */
  function Increment(n: uint32): (r: uint32)
    ensures n < 0xFFFF_FFFF ==> r == n + 1
  {
    (n + 1) % 0x1_0000_0000
  }

  function Decrement(n: uint32): (r: uint32)
    ensures n > 0 ==> r == n - 1
  {
    (n - 1) % 0x1_0000_0000
  }

  // ---- Specification of the operations ----

  function AfterCreate(o: Oracle, s: State, side: Side, service: string): (State, bool) {
    if side in s.held then (s, true)
    else if service in s.entries then
      var info := s.entries[service];
      (s.(entries := s.entries[service := info.(count := Increment(info.count))],
          held := s.held[side := info.swIfIndex]), true)
    else if !o(s.calls).ok then (s.(calls := s.calls + 1), false)
    else
      var index := Allocate(s.live, o(s.calls).hint);
      (State(s.entries[service := Info(index, 1)], s.held[side := index], s.live + {index}, s.stranded, s.calls + 1), true)
  }

  /** Without an entry for the service the program would stop on a nil pointer. */
  function AfterDel(o: Oracle, s: State, side: Side, service: string): State
    requires side in s.held ==> service in s.entries
  {
    if side !in s.held then s
    else
      var info := s.entries[service];
      var count := Decrement(info.count);
      var s' := s.(held := s.held - {side});
      if count != 0 then s'.(entries := s.entries[service := info.(count := count)])
      else if o(s.calls).ok
      then s'.(entries := s.entries - {service}, live := s.live - {s.held[side]}, calls := s.calls + 1)
      else s'.(entries := s.entries - {service}, stranded := s.stranded + {s.held[side]}, calls := s.calls + 1)
  }

  function AfterRequest(o: Oracle, s: State, side: Side, service: string, nextOk: bool): (State, bool)
    requires side in s.held ==> service in s.entries
  {
    var (s', ok) := AfterCreate(o, s, side, service);
    if !ok then (s', false)
    else if nextOk then (s', true)
    else (AfterDel(o, s', side, service), false)
  }

  // ---- What every step keeps ----

  /** The sides of connections of `service` whose metadata holds a loopback. */
  ghost function Holders(held: map<Side, nat>, serviceOf: string -> string, service: string): set<Side> {
    set side | side in held && serviceOf(side.conn) == service
  }

  function Indices(entries: map<string, Info>): set<nat> {
    set n | n in entries :: entries[n].swIfIndex
  }

  /** The count of a service is the number of sides that hold its loopback, and positive. */
  ghost predicate CountsHolders(entries: map<string, Info>, held: map<Side, nat>, serviceOf: string -> string) {
    forall n :: n in entries ==> entries[n].count == |Holders(held, serviceOf, n)| && entries[n].count > 0
  }

  /** What a side holds is the loopback of its service's entry. */
  ghost predicate HoldEntries(entries: map<string, Info>, held: map<Side, nat>, serviceOf: string -> string) {
    forall side :: side in held ==>
      serviceOf(side.conn) in entries && held[side] == entries[serviceOf(side.conn)].swIfIndex
  }

  /** There is an entry exactly while some side holds its loopback, and it counts the sides that do. */
  ghost predicate Counted(s: State, serviceOf: string -> string) {
    CountsHolders(s.entries, s.held, serviceOf) && HoldEntries(s.entries, s.held, serviceOf)
  }

  /** VPP's loopbacks are those of the entries, each belonging to one service, and those whose deletion failed. */
  ghost predicate Owned(s: State) {
    && s.live == Indices(s.entries) + s.stranded
    && Indices(s.entries) !! s.stranded
    && forall n, m :: n in s.entries && m in s.entries && s.entries[n].swIfIndex == s.entries[m].swIfIndex ==> n == m
  }

  lemma HoldersMore(held: map<Side, nat>, serviceOf: string -> string, side: Side, index: nat, service: string)
    requires side !in held
    ensures |Holders(held[side := index], serviceOf, service)| ==
            |Holders(held, serviceOf, service)| + if serviceOf(side.conn) == service then 1 else 0
  {
    var before := Holders(held, serviceOf, service);
    assert Holders(held[side := index], serviceOf, service) ==
           before + if serviceOf(side.conn) == service then {side} else {};
  }

  lemma HoldersFewer(held: map<Side, nat>, serviceOf: string -> string, side: Side, service: string)
    requires side in held
    ensures Holders(held - {side}, serviceOf, service) ==
            Holders(held, serviceOf, service) - if serviceOf(side.conn) == service then {side} else {}
    ensures |Holders(held - {side}, serviceOf, service)| ==
            |Holders(held, serviceOf, service)| - if serviceOf(side.conn) == service then 1 else 0
  {
    var before := Holders(held, serviceOf, service);
    if serviceOf(side.conn) == service {
      assert side in before;
      assert Holders(held - {side}, serviceOf, service) == before - {side};
    }
  }

  lemma NoHolders(held: map<Side, nat>, serviceOf: string -> string, service: string, side: Side)
    requires |Holders(held, serviceOf, service)| == 0 && side in held
    ensures serviceOf(side.conn) != service
  {
    assert side !in Holders(held, serviceOf, service);
  }

  lemma HoldersBounded(held: map<Side, nat>, serviceOf: string -> string, service: string)
    ensures |Holders(held, serviceOf, service)| <= |held|
  {
    SubsetIsSmaller(Holders(held, serviceOf, service), held.Keys);
  }

  lemma {:induction false} SubsetIsSmaller<T>(a: set<T>, b: set<T>)
    requires a <= b
    ensures |a| <= |b|
  {
    if a != {} {
      var x :| x in a;
      SubsetIsSmaller(a - {x}, b - {x});
    }
  }

  lemma CreateResult(o: Oracle, s: State, side: Side, service: string)
    requires side !in s.held && (service in s.entries ==> s.entries[service].count < 0xFFFF_FFFF)
    ensures var (s', ok) := AfterCreate(o, s, side, service);
            if ok then
              && side in s'.held && s'.held == s.held[side := s'.held[side]]
              && s'.entries == s.entries[service := Info(s'.held[side], 1 + if service in s.entries then s.entries[service].count else 0)]
              && (service in s.entries ==> s'.held[side] == s.entries[service].swIfIndex)
            else s'.held == s.held && s'.entries == s.entries
  {
    hide Increment, Allocate;
  }

  lemma OneMoreCounted(entries: map<string, Info>, held: map<Side, nat>, serviceOf: string -> string, side: Side, info: Info)
    requires CountsHolders(entries, held, serviceOf) && HoldEntries(entries, held, serviceOf) && side !in held
    requires var n := serviceOf(side.conn); info.count == 1 + if n in entries then entries[n].count else 0
    ensures CountsHolders(entries[serviceOf(side.conn) := info], held[side := info.swIfIndex], serviceOf)
  {
    var service := serviceOf(side.conn);
    var entries', held' := entries[service := info], held[side := info.swIfIndex];
    if service !in entries { assert Holders(held, serviceOf, service) == {}; }
    hide Holders;
    forall n | n in entries'
      ensures entries'[n].count == |Holders(held', serviceOf, n)| && entries'[n].count > 0
    {
      HoldersMore(held, serviceOf, side, info.swIfIndex, n);
    }
  }

  /** A side that was given a loopback is counted. The number of sides is below the counter's range. */
  lemma CreateKeepsCounted(o: Oracle, s: State, serviceOf: string -> string, side: Side)
    requires Counted(s, serviceOf) && |s.held| < 0xFFFF_FFFF
    ensures Counted(AfterCreate(o, s, side, serviceOf(side.conn)).0, serviceOf)
  {
    if side !in s.held {
      hide AfterCreate, Holders;
      var service := serviceOf(side.conn);
      HoldersBounded(s.held, serviceOf, service);
      CreateResult(o, s, side, service);
      var (s', ok) := AfterCreate(o, s, side, service);
      if ok {
        OneMoreCounted(s.entries, s.held, serviceOf, side, s'.entries[service]);
      }
    }
  }

  lemma CreateKeepsOwned(o: Oracle, s: State, side: Side, service: string)
    requires Owned(s)
    ensures Owned(AfterCreate(o, s, side, service).0)
  {
    hide Increment, FirstFree, Owned;
    var s' := AfterCreate(o, s, side, service).0;
    OwnedSame(s, s');
    if side in s.held {
    } else if service in s.entries {
      OwnedCounted(s, s', service, s'.entries[service]);
    } else if o(s.calls).ok {
      OwnedNew(s, s', service, s'.entries[service]);
    }
  }

  /** A request that VPP or the next element fails leaves its side with what it had. If it had nothing, the entries are as
      they were before, and so are VPP's loopbacks unless VPP refuses to delete the one that was made for it. */
  lemma FailedRequestUndone(o: Oracle, s: State, side: Side, service: string)
    requires side !in s.held && forall n :: n in s.entries ==> s.entries[n].count > 0
    ensures var (s', ok) := AfterRequest(o, s, side, service, false);
            && !ok && s'.held == s.held && s'.entries == s.entries
            && (service in s.entries || !o(s.calls).ok || o(s.calls + 1).ok ==> s'.live == s.live && s'.stranded == s.stranded)
            && (service !in s.entries && o(s.calls).ok && !o(s.calls + 1).ok ==>
                  exists i :: i !in s.live && s'.live == s.live + {i} && s'.stranded == s.stranded + {i})
  {
    hide FirstFree;
    var (s1, ok) := AfterCreate(o, s, side, service);
    if ok {
      assert s1.held - {side} == s.held;
      if service in s.entries {
        CountedAgain(s.entries[service].count);
        LastUpdateWins(s.entries, service, s1.entries[service], s.entries[service]);
        assert s.entries[service := s.entries[service]] == s.entries;
      } else {
        var i := s1.held[side];
        assert s1.entries - {service} == s.entries;
        assert s1.live - {i} == s.live;
        assert i !in s.live && s1.live == s.live + {i};
      }
    }
  }

  /** A failed refresh gives up the side's loopback. */
  lemma FailedRefreshReleases(o: Oracle, s: State, side: Side, service: string)
    requires side in s.held && service in s.entries
    ensures var (s', ok) := AfterRequest(o, s, side, service, false);
            !ok && s'.held == s.held - {side} && (s.entries[service].count == 1 ==> service !in s'.entries)
  {
    hide Increment;
  }

  lemma CountedAgain(n: uint32)
    ensures Decrement(Increment(n)) == n
  {
  }

  lemma OwnedSame(s: State, s': State)
    requires Owned(s)
    ensures s'.entries == s.entries && s'.live == s.live && s'.stranded == s.stranded ==> Owned(s')
  {
  }

  lemma OwnedCounted(s: State, s': State, service: string, info: Info)
    requires Owned(s) && service in s.entries && info.swIfIndex == s.entries[service].swIfIndex
    requires s'.entries == s.entries[service := info] && s'.live == s.live && s'.stranded == s.stranded
    ensures Owned(s')
  {
    assert forall n :: n in s.entries ==> s'.entries[n].swIfIndex == s.entries[n].swIfIndex;
    assert Indices(s'.entries) == Indices(s.entries);
  }

  lemma OwnedNew(s: State, s': State, service: string, info: Info)
    requires Owned(s) && service !in s.entries && info.swIfIndex !in s.live
    requires s'.entries == s.entries[service := info] && s'.live == s.live + {info.swIfIndex} && s'.stranded == s.stranded
    ensures Owned(s')
  {
    assert forall n :: n in s.entries ==> s.entries[n].swIfIndex in Indices(s.entries);
    assert forall n :: n in s.entries ==> s'.entries[n] == s.entries[n];
    assert s'.entries[service].swIfIndex in Indices(s'.entries);
  }

  lemma DelResult(o: Oracle, s: State, side: Side, service: string)
    requires side in s.held && service in s.entries && s.entries[service].count > 0
    ensures var s' := AfterDel(o, s, side, service);
            var info := s.entries[service];
            && s'.held == s.held - {side}
            && s'.entries == if info.count == 1 then s.entries - {service}
                             else s.entries[service := info.(count := info.count - 1)]
  {
    hide Decrement;
  }

  lemma OneFewerCounted(entries: map<string, Info>, held: map<Side, nat>, serviceOf: string -> string, side: Side)
    requires CountsHolders(entries, held, serviceOf) && HoldEntries(entries, held, serviceOf) && side in held
    ensures var n := serviceOf(side.conn);
            var held' := held - {side};
            if entries[n].count == 1
            then CountsHolders(entries - {n}, held', serviceOf) && HoldEntries(entries - {n}, held', serviceOf)
            else CountsHolders(entries[n := entries[n].(count := entries[n].count - 1)], held', serviceOf)
  {
    var service, held' := serviceOf(side.conn), held - {side};
    hide Holders;
    forall n | n in entries
      ensures |Holders(held', serviceOf, n)| == entries[n].count - if n == service then 1 else 0
    {
      HoldersFewer(held, serviceOf, side, n);
    }
    if entries[service].count == 1 {
      forall d | d in held'
        ensures serviceOf(d.conn) != service
      {
        NoHolders(held', serviceOf, service, d);
      }
    }
  }

  lemma DelKeepsCounted(o: Oracle, s: State, serviceOf: string -> string, side: Side)
    requires Counted(s, serviceOf)
    ensures Counted(AfterDel(o, s, side, serviceOf(side.conn)), serviceOf)
  {
    if side in s.held {
      hide AfterDel, CountsHolders;
      OneFewerCounted(s.entries, s.held, serviceOf, side);
      assert s.entries[serviceOf(side.conn)].count > 0 by { Positive(s.entries, s.held, serviceOf, serviceOf(side.conn)); }
      DelResult(o, s, side, serviceOf(side.conn));
    }
  }

  lemma Positive(entries: map<string, Info>, held: map<Side, nat>, serviceOf: string -> string, n: string)
    requires CountsHolders(entries, held, serviceOf) && n in entries
    ensures entries[n].count > 0
  {
  }

  lemma DelKeepsOwned(o: Oracle, s: State, serviceOf: string -> string, side: Side)
    requires Counted(s, serviceOf) && Owned(s)
    ensures Owned(AfterDel(o, s, side, serviceOf(side.conn)))
  {
    if side in s.held {
      var service := serviceOf(side.conn);
      var s' := AfterDel(o, s, side, service);
      assert forall n :: n in s'.entries ==> s'.entries[n].swIfIndex == s.entries[n].swIfIndex;
      if service in s'.entries {
        assert Indices(s'.entries) == Indices(s.entries);
      } else {
        assert s.held[side] in Indices(s.entries);
        IndicesFewer(s.entries, service);
      }
    }
  }

  lemma IndicesFewer(entries: map<string, Info>, service: string)
    requires service in entries
    requires forall n :: n in entries && entries[n].swIfIndex == entries[service].swIfIndex ==> n == service
    ensures Indices(entries - {service}) == Indices(entries) - {entries[service].swIfIndex}
  {
    forall i | i in Indices(entries) - {entries[service].swIfIndex}
      ensures i in Indices(entries - {service})
    {
      var n :| n in entries && entries[n].swIfIndex == i;
      assert n in entries - {service} && (entries - {service})[n].swIfIndex == i;
    }
  }

  // ---- Runs ----

  datatype Action = Request(side: Side, nextOk: bool) | Close(side: Side)

  /** The entry that a delete looks up is there. */
  ghost predicate Safe(s: State, serviceOf: string -> string, a: Action) {
    a.side in s.held ==> serviceOf(a.side.conn) in s.entries
  }

  ghost function Step(o: Oracle, s: State, serviceOf: string -> string, a: Action): State
    requires Safe(s, serviceOf, a)
  {
    match a
    case Request(side, nextOk) => AfterRequest(o, s, side, serviceOf(side.conn), nextOk).0
    case Close(side) => AfterDel(o, s, side, serviceOf(side.conn))
  }

  lemma RequestKeeps(o: Oracle, s: State, serviceOf: string -> string, side: Side, nextOk: bool)
    requires Counted(s, serviceOf) && Owned(s) && |s.held| < 0xFFFF_FFFF
    requires Safe(s, serviceOf, Request(side, nextOk))
    ensures var s' := AfterRequest(o, s, side, serviceOf(side.conn), nextOk).0;
            Counted(s', serviceOf) && Owned(s')
  {
    CreateKeepsCounted(o, s, serviceOf, side);
    CreateKeepsOwned(o, s, side, serviceOf(side.conn));
    var (s', ok) := AfterCreate(o, s, side, serviceOf(side.conn));
    if ok && !nextOk {
      hide Owned, Counted, AfterDel, AfterCreate;
      DelKeepsCounted(o, s', serviceOf, side);
      DelKeepsOwned(o, s', serviceOf, side);
    }
  }

  lemma StepKeeps(o: Oracle, s: State, serviceOf: string -> string, a: Action)
    requires Counted(s, serviceOf) && Owned(s) && |s.held| < 0xFFFF_FFFF
    ensures Safe(s, serviceOf, a)
    ensures Counted(Step(o, s, serviceOf, a), serviceOf) && Owned(Step(o, s, serviceOf, a))
  {
    assert Safe(s, serviceOf, a);
    hide Owned, Counted, AfterDel, AfterRequest;
    match a
    case Close(side) =>
      DelKeepsCounted(o, s, serviceOf, side);
      DelKeepsOwned(o, s, serviceOf, side);
    case Request(side, nextOk) => RequestKeeps(o, s, serviceOf, side, nextOk);
  }

  lemma StepStrandsNothing(o: Oracle, s: State, serviceOf: string -> string, a: Action)
    requires NeverFails(o) && Safe(s, serviceOf, a)
    ensures Step(o, s, serviceOf, a).stranded == s.stranded
  {
    hide Increment, Decrement, Allocate;
  }

  /** States reachable by requests and closes in any order, with any VPP calls failing,
      while there are fewer sides than the counter can count. */
  ghost predicate Reachable(o: Oracle, serviceOf: string -> string, trace: seq<State>, actions: seq<Action>) {
    && |trace| == |actions| + 1
    && trace[0] == INITIAL
    && (forall i :: 0 <= i < |trace| ==> |trace[i].held| < 0xFFFF_FFFF)
    && forall i :: 0 <= i < |actions| ==>
         Safe(trace[i], serviceOf, actions[i]) ==> trace[i + 1] == Step(o, trace[i], serviceOf, actions[i])
  }

  /** In every reachable state the counts are the numbers of holders, every delete finds its entry, and VPP's loopbacks
      are accounted for; without failures they are exactly those of the entries. */
  lemma {:induction false} RunKeeps(
    o: Oracle, serviceOf: string -> string, trace: seq<State>, actions: seq<Action>, i: nat)
    requires Reachable(o, serviceOf, trace, actions) && i <= |actions|
    ensures Counted(trace[i], serviceOf) && Owned(trace[i])
    ensures i < |actions| ==> Safe(trace[i], serviceOf, actions[i])
    ensures NeverFails(o) ==> trace[i].live == Indices(trace[i].entries)
  {
    NothingStranded(o, serviceOf, trace, actions, i);
  }

  lemma {:induction false} NothingStranded(
    o: Oracle, serviceOf: string -> string, trace: seq<State>, actions: seq<Action>, i: nat)
    requires Reachable(o, serviceOf, trace, actions) && i <= |actions|
    ensures Counted(trace[i], serviceOf) && Owned(trace[i])
    ensures NeverFails(o) ==> trace[i].stranded == {}
  {
    if i > 0 {
      hide Step, Counted, Owned;
      NothingStranded(o, serviceOf, trace, actions, i - 1);
      StepKeeps(o, trace[i - 1], serviceOf, actions[i - 1]);
      if NeverFails(o) { StepStrandsNothing(o, trace[i - 1], serviceOf, actions[i - 1]); }
    }
  }

  // ---- The program ----

  class Conn {
    const oracle: Oracle
    var calls: nat
    var live: set<nat>
    ghost var stranded: set<nat>

    constructor (oracle: Oracle)
      ensures this.oracle == oracle && calls == 0 && live == {} && stranded == {}
    {
      this.oracle := oracle;
      calls, live, stranded := 0, {}, {};
    }

    method CreateLoopback() returns (ok: bool, swIfIndex: nat)
      modifies this
      ensures calls == old(calls) + 1 && ok == oracle(old(calls)).ok && stranded == old(stranded)
      ensures ok ==> swIfIndex == Allocate(old(live), oracle(old(calls)).hint) && live == old(live) + {swIfIndex}
      ensures !ok ==> live == old(live)
    {
      var r := oracle(calls);
      ok, swIfIndex := r.ok, Allocate(live, r.hint);
      calls := calls + 1;
      if ok { live := live + {swIfIndex}; }
    }

    method DeleteLoopback(swIfIndex: nat) returns (ok: bool)
      modifies this
      ensures calls == old(calls) + 1 && ok == oracle(old(calls)).ok
      ensures live == (if ok then old(live) - {swIfIndex} else old(live))
      ensures stranded == (if ok then old(stranded) else old(stranded) + {swIfIndex})
    {
      ok := oracle(calls).ok;
      calls := calls + 1;
      if ok { live := live - {swIfIndex}; } else { stranded := stranded + {swIfIndex}; }
    }
  }

  /** Shared by every connection of a service: the entries point at it. */
  class LoopInfo {
    const swIfIndex: nat
    var count: uint32

    constructor (swIfIndex: nat)
      ensures this.swIfIndex == swIfIndex && count == 0
    {
      this.swIfIndex, count := swIfIndex, 0;
    }
  }

  lemma DroppedUpdate(entries: map<string, Info>, service: string, info: Info)
    ensures entries[service := info] - {service} == entries - {service}
  {
  }

  class Server {
    const vpp: Conn
    var entries: map<string, LoopInfo>
    var held: map<Side, nat>

    ghost predicate Valid()
      reads this
    {
      forall n, m :: n in entries && m in entries && entries[n] == entries[m] ==> n == m
    }

    ghost function St(): State
      reads this, vpp, entries.Values
    {
      State(map n | n in entries :: Info(entries[n].swIfIndex, entries[n].count), held, vpp.live, vpp.stranded, vpp.calls)
    }

    constructor (vpp: Conn)
      ensures this.vpp == vpp && Valid() && entries == map[] && held == map[]
    {
      this.vpp := vpp;
      entries, held := map[], map[];
    }

    method CreateLoopback(side: Side, service: string) returns (ok: bool)
      requires Valid()
      modifies this, vpp, entries.Values
      ensures Valid() && fresh(entries.Values - old(entries.Values))
      ensures (St(), ok) == AfterCreate(vpp.oracle, old(St()), side, service)
    {
      ok := true;
      if side !in held {
        if service !in entries {
          ok := AddEntry(service);
          if !ok { return; }
          LastUpdateWins(old(St()).entries, service, Info(entries[service].swIfIndex, 0), Info(entries[service].swIfIndex, 1));
        }
        HoldEntry(side, service);
      }
    }

    /** A new loopback, with an entry that no side holds yet. */
    method AddEntry(service: string) returns (ok: bool)
      requires Valid() && service !in entries
      modifies this, vpp
      ensures Valid()
      ensures if ok then service in entries && fresh(entries[service]) && entries == old(entries)[service := entries[service]]
              else entries == old(entries)
      ensures var s := old(St());
              var index := Allocate(s.live, vpp.oracle(s.calls).hint);
              ok == vpp.oracle(s.calls).ok &&
              St() == if ok then State(s.entries[service := Info(index, 0)], s.held, s.live + {index}, s.stranded, s.calls + 1)
                      else s.(calls := s.calls + 1)
    {
      hide Allocate;
      var swIfIndex;
      ok, swIfIndex := vpp.CreateLoopback();
      if ok {
        var info := new LoopInfo(swIfIndex);
        entries := entries[service := info];
        assert forall n :: n in old(entries) ==> St().entries[n] == old(St()).entries[n];
      }
      assert St().entries == if ok then old(St()).entries[service := Info(swIfIndex, 0)] else old(St()).entries;
    }

    /** One more side holds the loopback of an entry. */
    method HoldEntry(side: Side, service: string)
      requires Valid() && service in entries
      modifies this, entries[service]
      ensures Valid() && entries == old(entries)
      ensures var s := old(St());
              var info := s.entries[service];
              St() == s.(entries := s.entries[service := info.(count := Increment(info.count))],
                         held := s.held[side := info.swIfIndex])
    {
      hide Increment;
      var info := entries[service];
      info.count := Increment(info.count);
      held := held[side := info.swIfIndex];
      assert forall n :: n in entries && n != service ==> entries[n] != info && entries[n].count == old(entries[n].count);
    }

    method Del(side: Side, service: string)
      requires Valid()
      requires side in held ==> service in entries
      modifies this, vpp, entries.Values
      ensures Valid() && fresh(entries.Values - old(entries.Values))
      ensures St() == AfterDel(vpp.oracle, old(St()), side, service)
    {
      hide Decrement;
      if side in held {
        var swIfIndex := held[side];
        ghost var before := old(St()).entries;
        ReleaseEntry(side, service);
        DroppedUpdate(before, service, St().entries[service]);
        if entries[service].count == 0 { DropEntry(service, swIfIndex); }
      }
    }

    /** One side fewer holds the loopback of an entry. */
    method ReleaseEntry(side: Side, service: string)
      requires Valid() && service in entries
      modifies this`held, entries[service]
      ensures Valid()
      ensures var s := old(St());
              var info := s.entries[service];
              St() == s.(entries := s.entries[service := info.(count := Decrement(info.count))], held := s.held - {side})
    {
      hide Decrement;
      var info := entries[service];
      info.count := Decrement(info.count);
      held := held - {side};
      assert forall n :: n in entries && n != service ==> entries[n] != info && entries[n].count == old(entries[n].count);
    }

    /** The entry that no side holds any longer goes, and its loopback with it. */
    method DropEntry(service: string, swIfIndex: nat)
      requires Valid() && service in entries
      modifies this`entries, vpp
      ensures Valid() && entries == old(entries) - {service}
      ensures var s := old(St());
              var s' := s.(entries := s.entries - {service}, calls := s.calls + 1);
              St() == if vpp.oracle(s.calls).ok then s'.(live := s.live - {swIfIndex})
                      else s'.(stranded := s.stranded + {swIfIndex})
    {
      entries := entries - {service};
      // a failure is only logged
      var _ := vpp.DeleteLoopback(swIfIndex);
    }

    method Request(side: Side, service: string, nextOk: bool) returns (ok: bool)
      requires Valid()
      requires side in held ==> service in entries
      modifies this, vpp, entries.Values
      ensures Valid() && fresh(entries.Values - old(entries.Values))
      ensures (St(), ok) == AfterRequest(vpp.oracle, old(St()), side, service, nextOk)
    {
      ok := CreateLoopback(side, service);
      assert ok ==> service in St().entries;
      if ok && !nextOk {
        Del(side, service);
        ok := false;
      }
    }

    method Close(side: Side, service: string)
      requires Valid()
      requires side in held ==> service in entries
      modifies this, vpp, entries.Values
      ensures Valid() && fresh(entries.Values - old(entries.Values))
      ensures St() == AfterDel(vpp.oracle, old(St()), side, service)
    {
      Del(side, service);
    }
  }
}
