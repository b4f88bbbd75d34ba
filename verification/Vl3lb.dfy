/** The vl3 load balancer's handler (pkg/networkservice/vl3lb/handler.go): a two-level map of servers,
    flattened into the paths of one CNAT translation whenever an update is thought necessary. */
module Vl3lb {
  import opened Collections
  import opened GoNet
  import opened IpTypes
  import opened Vpp

  type Port = x: int | 0 <= x < 0x1_0000

  datatype Endpoint = Endpoint(ip: IP, port: Port)

  predicate Equals(a: Endpoint, b: Endpoint) {
    Equal(a.ip, b.ip) && a.port == b.port
  }

  const ANY_INTERFACE := 0xFFFF_FFFF

  datatype CnatEndpoint = CnatEndpoint(addr: Address, swIfIndex: nat, port: Port)
  datatype CnatEndpointTuple = CnatEndpointTuple(dst: CnatEndpoint, src: CnatEndpoint)

  /** For each NSE the endpoints of its connections, by connection id. */
  type Servers = map<string, map<string, Endpoint>>

  /** Everything one run can observe: the handler's map, the paths installed in VPP, the number of VPP
      calls made so far, and whether the most recent of them succeeded (true before the first). */
  datatype State = State(servers: Servers, installed: multiset<CnatEndpointTuple>, calls: nat, lastOk: bool)

  const INITIAL := State(map[], multiset{}, 0, true)

  // ---- Paths ----

  function PathTo(lb: Address, server: Endpoint): CnatEndpointTuple {
    CnatEndpointTuple(CnatEndpoint(ToVppAddress(server.ip), ANY_INTERFACE, server.port),
                      CnatEndpoint(lb, ANY_INTERFACE, 0))
  }

  function Entry(servers: Servers, nse: string): map<string, Endpoint> {
    if nse in servers then servers[nse] else map[]
  }

  ghost predicate SameServers(a: map<string, Endpoint>, b: map<string, Endpoint>) {
    a.Keys == b.Keys && forall k :: k in a ==> Equals(a[k], b[k])
  }

  /** One path for each entry of `m` whose key is in `keys`. */
  ghost function PathBag(lb: Address, m: map<string, Endpoint>, keys: set<string>): multiset<CnatEndpointTuple>
    requires keys <= m.Keys
  {
    if keys == {} then multiset{}
    else
      var k := Pick(keys);
      multiset{PathTo(lb, m[k])} + PathBag(lb, m, keys - {k})
  }

  /** One path for each server of each NSE in `nses`. */
  ghost function PathsOf(lb: Address, servers: Servers, nses: set<string>): multiset<CnatEndpointTuple> {
    if nses == {} then multiset{}
    else
      var n := Pick(nses);
      PathBag(lb, Entry(servers, n), Entry(servers, n).Keys) + PathsOf(lb, servers, nses - {n})
  }

  ghost function Paths(lb: Address, servers: Servers): multiset<CnatEndpointTuple> {
    PathsOf(lb, servers, servers.Keys)
  }

  lemma {:induction false} PathBagSplit(lb: Address, m: map<string, Endpoint>, keys: set<string>, k: string)
    requires k in keys && keys <= m.Keys
    ensures PathBag(lb, m, keys) == multiset{PathTo(lb, m[k])} + PathBag(lb, m, keys - {k})
  {
    var j := Pick(keys);
    if j != k {
      PathBagSplit(lb, m, keys - {j}, k);
      PathBagSplit(lb, m, keys - {k}, j);
      assert keys - {j} - {k} == keys - {k} - {j};
    }
  }

  /** Two endpoints with addresses of 4 or 16 bytes count as equal exactly if they give one path. */
  lemma EqualsIsOnePath(lb: Address, a: Endpoint, b: Endpoint)
    requires |a.ip| in {4, 16} && |b.ip| in {4, 16}
    ensures Equals(a, b) <==> PathTo(lb, a) == PathTo(lb, b)
  {
    ToVppAddressRespectsEqual(a.ip, b.ip);
  }

  /** Maps with equal keys and `Equals` entries have the same paths. */
  lemma {:induction false} PathBagRespectsEquals(
    lb: Address, a: map<string, Endpoint>, b: map<string, Endpoint>, keys: set<string>)
    requires keys <= a.Keys && keys <= b.Keys
    requires forall k :: k in keys ==> Equals(a[k], b[k])
    ensures PathBag(lb, a, keys) == PathBag(lb, b, keys)
  {
    if keys != {} {
      var k := Pick(keys);
      ToVppAddressRespectsEqual(a[k].ip, b[k].ip);
      PathBagRespectsEquals(lb, a, b, keys - {k});
    }
  }

  lemma {:induction false} PathsOfSplit(lb: Address, servers: Servers, nses: set<string>, n: string)
    requires n in nses
    ensures PathsOf(lb, servers, nses) ==
            PathBag(lb, Entry(servers, n), Entry(servers, n).Keys) + PathsOf(lb, servers, nses - {n})
  {
    var j := Pick(nses);
    if j != n {
      PathsOfSplit(lb, servers, nses - {j}, n);
      PathsOfSplit(lb, servers, nses - {n}, j);
      assert nses - {j} - {n} == nses - {n} - {j};
    }
  }

  /** NSEs with no server contribute no path. */
  lemma {:induction false} PathsOfMore(lb: Address, servers: Servers, nses: set<string>, more: set<string>)
    requires forall n :: n in more - nses ==> Entry(servers, n).Keys == {}
    ensures PathsOf(lb, servers, nses + more) == PathsOf(lb, servers, nses)
    decreases more
  {
    if more <= nses {
      assert nses + more == nses;
    } else {
      var n :| n in more && n !in nses;
      PathsOfMore(lb, servers, nses, more - {n});
      PathsOfSplit(lb, servers, nses + more, n);
      assert nses + more - {n} == nses + (more - {n});
    }
  }

  lemma {:induction false} PathsOfRespectsEntries(lb: Address, a: Servers, b: Servers, nses: set<string>)
    requires forall n :: n in nses ==> SameServers(Entry(a, n), Entry(b, n))
    ensures PathsOf(lb, a, nses) == PathsOf(lb, b, nses)
  {
    if nses != {} {
      var n := Pick(nses);
      PathBagRespectsEquals(lb, Entry(a, n), Entry(b, n), Entry(a, n).Keys);
      PathsOfRespectsEntries(lb, a, b, nses - {n});
    }
  }

  lemma {:induction false} PathBagMembers(
    lb: Address, m: map<string, Endpoint>, keys: set<string>, t: CnatEndpointTuple)
    requires keys <= m.Keys
    ensures t in PathBag(lb, m, keys) <==> exists k :: k in keys && t == PathTo(lb, m[k])
  {
    if keys != {} {
      PathBagMembers(lb, m, keys - {Pick(keys)}, t);
    }
  }

  /** The paths are exactly the ones that lead from the load balancer's address, with port 0 and on any
      interface, to the VPP address and port of some server of some NSE. */
  lemma {:induction false} PathsMembers(lb: Address, servers: Servers, nses: set<string>, t: CnatEndpointTuple)
    ensures t in PathsOf(lb, servers, nses) <==>
            exists n, k :: n in nses && k in Entry(servers, n) &&
              t.dst.addr == ToVppAddress(Entry(servers, n)[k].ip) && t.dst.port == Entry(servers, n)[k].port &&
              t.src.addr == lb && t.src.port == 0 &&
              t.dst.swIfIndex == t.src.swIfIndex == 0xFFFF_FFFF
  {
    if nses != {} {
      var n := Pick(nses);
      PathsMembers(lb, servers, nses - {n}, t);
      PathBagMembers(lb, Entry(servers, n), Entry(servers, n).Keys, t);
    }
  }

  // ---- Specification of the operations ----

  predicate IsNews(inner: map<string, Endpoint>, id: string, server: Endpoint) {
    id !in inner || !Equals(inner[id], server)
  }

  function News(inner: map<string, Endpoint>, add: map<string, Endpoint>): set<string> {
    set k | k in add && IsNews(inner, k, add[k])
  }

  function Merge(inner: map<string, Endpoint>, add: map<string, Endpoint>): map<string, Endpoint> {
    inner + map k | k in News(inner, add) :: add[k]
  }

  ghost function AfterUpdate(o: Oracle, lb: Address, s: State): State {
    s.(installed := if o(s.calls).ok then Paths(lb, s.servers) else s.installed,
       calls := s.calls + 1,
       lastOk := o(s.calls).ok)
  }

  ghost function AfterAdd(o: Oracle, lb: Address, s: State, nse: string, add: map<string, Endpoint>): State {
    var inner := Entry(s.servers, nse);
    var s' := s.(servers := s.servers[nse := Merge(inner, add)]);
    if News(inner, add) != {} then AfterUpdate(o, lb, s') else s'
  }

  ghost function AfterDelete(o: Oracle, lb: Address, s: State, nse: string, del: set<string>): State {
    if nse !in s.servers || del == {} then s
    else
      var inner := s.servers[nse] - del;
      var servers := if inner.Keys == {} then s.servers - {nse} else s.servers[nse := inner];
      AfterUpdate(o, lb, s.(servers := servers))
  }

  // ---- Runs ----

  /** The handler calls made by the monitors of all NSEs, in the order they happen to take effect.
      `DeleteAll` is the call made when an NSE's stream ends: delete what `getServerIDsByVL3Name` lists. */
  datatype Call =
    | Add(nse: string, add: map<string, Endpoint>)
    | Delete(nse: string, del: set<string>)
    | DeleteAll(nse: string)

  ghost function Step(o: Oracle, lb: Address, s: State, c: Call): State {
    match c
    case Add(nse, add) => AfterAdd(o, lb, s, nse, add)
    case Delete(nse, del) => AfterDelete(o, lb, s, nse, del)
    case DeleteAll(nse) => AfterDelete(o, lb, s, nse, Entry(s.servers, nse).Keys)
  }

  ghost function Run(o: Oracle, lb: Address, s: State, calls: seq<Call>): State {
    if calls == [] then s
    else Step(o, lb, Run(o, lb, s, calls[..|calls| - 1]), calls[|calls| - 1])
  }

  lemma RunAppend(o: Oracle, lb: Address, s: State, calls: seq<Call>, c: Call)
    ensures Run(o, lb, s, calls + [c]) == Step(o, lb, Run(o, lb, s, calls), c)
  {
    assert (calls + [c])[..|calls|] == calls;
  }

  lemma {:induction false} RunConcat(o: Oracle, lb: Address, s: State, a: seq<Call>, b: seq<Call>)
    ensures Run(o, lb, s, a + b) == Run(o, lb, Run(o, lb, s, a), b)
  {
    hide Step;
    if b == [] {
      assert a + b == a;
    } else {
      RunConcat(o, lb, s, a, b[..|b| - 1]);
      assert (a + b)[..|a + b| - 1] == a + b[..|b| - 1];
    }
  }

  /** What the calls of one NSE mean, with no cache, no filter and no VPP: the last word on each id. */
  function FoldOf(nse: string, calls: seq<Call>): map<string, Endpoint> {
    if calls == [] then map[]
    else
      var before := FoldOf(nse, calls[..|calls| - 1]);
      var c := calls[|calls| - 1];
      if c.nse != nse then before
      else
        match c
        case Add(_, add) => before + add
        case Delete(_, del) => before - del
        case DeleteAll(_) => map[]
  }

  function FoldAll(calls: seq<Call>): Servers {
    map n | n in (set i | 0 <= i < |calls| :: calls[i].nse) :: FoldOf(n, calls)
  }

  lemma EqualsIsEquivalence(a: Endpoint, b: Endpoint, c: Endpoint)
    ensures Equals(a, a)
    ensures Equals(a, b) ==> Equals(b, a)
    ensures Equals(a, b) && Equals(b, c) ==> Equals(a, c)
  {
    SixteenBytes(a.ip);
    SixteenBytes(b.ip);
    SixteenBytes(c.ip);
  }

  /** The filtered update of an entry agrees with the unfiltered one. */
  lemma MergeFollowsOverride(inner: map<string, Endpoint>, fold: map<string, Endpoint>, add: map<string, Endpoint>)
    requires SameServers(inner, fold)
    ensures SameServers(Merge(inner, add), fold + add)
  {
    forall k | k in Merge(inner, add)
      ensures Equals(Merge(inner, add)[k], (fold + add)[k])
    {
      if k in add { EqualsIsEquivalence(add[k], add[k], add[k]); }
    }
  }

  lemma MergeNothing(inner: map<string, Endpoint>)
    ensures Merge(inner, map[]) == inner && News(inner, map[]) == {}
  {
    var none: map<string, Endpoint> := map[];
    assert (map k | k in News(inner, none) :: none[k]) == none;
  }

  lemma NewsOneMore(inner: map<string, Endpoint>, done: map<string, Endpoint>, id: string, server: Endpoint)
    requires id !in done
    ensures News(inner, done[id := server]) ==
            News(inner, done) + if IsNews(inner, id, server) then {id} else {}
  {
    hide IsNews;
    var more := done[id := server];
    assert forall k :: k in done ==> more[k] == done[k];
  }

  /** What has been stored for other ids does not make an id news. */
  lemma StillNews(inner: map<string, Endpoint>, done: map<string, Endpoint>, id: string, server: Endpoint)
    requires id !in done
    ensures IsNews(Merge(inner, done), id, server) <==> IsNews(inner, id, server)
  {
    hide Equals;
  }

  lemma MergeOneMore(inner: map<string, Endpoint>, done: map<string, Endpoint>, id: string, server: Endpoint)
    requires id !in done
    ensures Merge(inner, done[id := server]) ==
            if IsNews(inner, id, server) then Merge(inner, done)[id := server] else Merge(inner, done)
  {
    NewsOneMore(inner, done, id, server);
    assert id !in News(inner, done);
    hide News, IsNews;
    MergeOver(inner, News(inner, done), done, id, server);
  }

  lemma MergeOver(inner: map<string, Endpoint>, news: set<string>, done: map<string, Endpoint>, id: string, server: Endpoint)
    requires id !in done && news <= done.Keys
    ensures inner + (map k | k in news + {id} :: done[id := server][k]) == (inner + map k | k in news :: done[k])[id := server]
    ensures inner + (map k | k in news :: done[id := server][k]) == inner + map k | k in news :: done[k]
  {
  }

  /** One call changes the entry of its own NSE only, and that entry as if there were no VPP. */
  lemma StepEntry(o: Oracle, lb: Address, s: State, c: Call, nse: string)
    ensures var inner := Entry(s.servers, nse);
            Entry(Step(o, lb, s, c).servers, nse) ==
            if c.nse != nse then inner
            else match c
                 case Add(_, add) => Merge(inner, add)
                 case Delete(_, del) => inner - del
                 case DeleteAll(_) => map[]
  {
    hide Paths, Merge, News;
    var inner := Entry(s.servers, nse);
    match c
    case Add(_, _) =>
    case Delete(_, del) =>
      assert inner - {} == inner;
      assert (inner - del).Keys == {} ==> inner - del == map[];
    case DeleteAll(_) =>
      assert (inner - inner.Keys).Keys == {};
  }

  /** After any run, each NSE's entry is the plain fold of that NSE's own calls, up to `Equals`:
      the filter loses nothing, failures of VPP lose nothing, and other NSEs do not interfere. */
  lemma {:induction false} EntriesFollowFold(o: Oracle, lb: Address, calls: seq<Call>, nse: string)
    ensures SameServers(Entry(Run(o, lb, INITIAL, calls).servers, nse), FoldOf(nse, calls))
  {
    if calls != [] {
      var before, c := calls[..|calls| - 1], calls[|calls| - 1];
      EntriesFollowFold(o, lb, before, nse);
      StepEntry(o, lb, Run(o, lb, INITIAL, before), c, nse);
      if c.Add? {
        MergeFollowsOverride(Entry(Run(o, lb, INITIAL, before).servers, nse), FoldOf(nse, before), c.add);
      }
    }
  }

  /** Empty entries and the choice among `Equals` endpoints do not show in the paths. */
  lemma PathsRespectEntries(lb: Address, a: Servers, b: Servers)
    requires forall n :: SameServers(Entry(a, n), Entry(b, n))
    ensures Paths(lb, a) == Paths(lb, b)
  {
    PathsOfMore(lb, a, a.Keys, b.Keys);
    PathsOfMore(lb, b, b.Keys, a.Keys);
    assert a.Keys + b.Keys == b.Keys + a.Keys;
    PathsOfRespectsEntries(lb, a, b, a.Keys + b.Keys);
  }

  lemma {:induction false} FoldOfUnmentioned(nse: string, calls: seq<Call>)
    requires forall i :: 0 <= i < |calls| ==> calls[i].nse != nse
    ensures FoldOf(nse, calls) == map[]
  {
    if calls != [] { FoldOfUnmentioned(nse, calls[..|calls| - 1]); }
  }

  lemma FoldAllEntry(nse: string, calls: seq<Call>)
    ensures Entry(FoldAll(calls), nse) == FoldOf(nse, calls)
  {
    if nse !in FoldAll(calls) {
      assert forall i :: 0 <= i < |calls| ==> calls[i].nse in (set j | 0 <= j < |calls| :: calls[j].nse);
      FoldOfUnmentioned(nse, calls);
    }
  }

  /** An update that is skipped leaves the paths as they were. */
  lemma SkippedAddKeepsPaths(lb: Address, servers: Servers, nse: string, add: map<string, Endpoint>)
    requires News(Entry(servers, nse), add) == {}
    ensures Paths(lb, servers[nse := Merge(Entry(servers, nse), add)]) == Paths(lb, servers)
  {
    var inner := Entry(servers, nse);
    var servers' := servers[nse := Merge(inner, add)];
    assert Merge(inner, add) == inner;
    forall n
      ensures SameServers(Entry(servers', n), Entry(servers, n))
    {
      assert Entry(servers', n) == Entry(servers, n);
      forall k | k in Entry(servers, n)
        ensures Equals(Entry(servers, n)[k], Entry(servers, n)[k])
      {
        EqualsIsEquivalence(Entry(servers, n)[k], Entry(servers, n)[k], Entry(servers, n)[k]);
      }
    }
    PathsRespectEntries(lb, servers', servers);
  }

  ghost predicate InSync(lb: Address, s: State) {
    s.lastOk ==> s.installed == Paths(lb, s.servers)
  }

  lemma StepKeepsInSync(o: Oracle, lb: Address, s: State, c: Call)
    requires InSync(lb, s)
    ensures InSync(lb, Step(o, lb, s, c))
  {
    if c.Add? && News(Entry(s.servers, c.nse), c.add) == {} {
      SkippedAddKeepsPaths(lb, s.servers, c.nse, c.add);
    }
  }

  lemma {:induction false} RunIsInSync(o: Oracle, lb: Address, calls: seq<Call>)
    ensures InSync(lb, Run(o, lb, INITIAL, calls))
  {
    if calls == [] {
    } else {
      RunIsInSync(o, lb, calls[..|calls| - 1]);
      StepKeepsInSync(o, lb, Run(o, lb, INITIAL, calls[..|calls| - 1]), calls[|calls| - 1]);
    }
  }

  /** In every run, whatever fails: if the most recent attempted CNAT update succeeded (or none was attempted),
      the paths installed in VPP are those of the plain fold of all calls, as a multiset. */
  lemma InstalledPathsFollowFold(o: Oracle, lb: Address, calls: seq<Call>)
    requires Run(o, lb, INITIAL, calls).lastOk
    ensures Run(o, lb, INITIAL, calls).installed == Paths(lb, FoldAll(calls))
  {
    RunIsInSync(o, lb, calls);
    var servers := Run(o, lb, INITIAL, calls).servers;
    forall n
      ensures SameServers(Entry(servers, n), Entry(FoldAll(calls), n))
    {
      EntriesFollowFold(o, lb, calls, n);
      FoldAllEntry(n, calls);
    }
    PathsRespectEntries(lb, servers, FoldAll(calls));
  }

  /** Whether a call attempts an update: it reports a server that is missing or different, or deletes ids of an NSE that
      has an entry. */
  predicate Attempts(servers: Servers, c: Call) {
    match c
    case Add(nse, add) => News(Entry(servers, nse), add) != {}
    case Delete(nse, del) => nse in servers && del != {}
    case DeleteAll(nse) => Entry(servers, nse) != map[]
  }

  lemma StepAttempts(o: Oracle, lb: Address, s: State, c: Call)
    ensures Step(o, lb, s, c).calls == s.calls + (if Attempts(s.servers, c) then 1 else 0)
    ensures Step(o, lb, s, c).lastOk == if Attempts(s.servers, c) then o(s.calls).ok else s.lastOk
    ensures !Attempts(s.servers, c) ==> Step(o, lb, s, c).installed == s.installed
  {
    hide Paths, News, Merge;
    assert Entry(s.servers, c.nse).Keys == {} <==> Entry(s.servers, c.nse) == map[];
  }

  /** A deletion with some ids of an NSE that has an entry takes these ids and no others away, and leaves no entry without
      servers. */
  lemma DeletionLeaves(o: Oracle, lb: Address, s: State, nse: string, del: set<string>, n: string, id: string)
    requires nse in s.servers && del != {}
    ensures var s' := AfterDelete(o, lb, s, nse, del);
            && (n != nse ==> (n in s'.servers <==> n in s.servers) && Entry(s'.servers, n) == Entry(s.servers, n))
            && (id in Entry(s'.servers, nse) <==> id in s.servers[nse] && id !in del)
            && (id in Entry(s'.servers, nse) ==> Entry(s'.servers, nse)[id] == s.servers[nse][id])
            && (nse in s'.servers ==> s'.servers[nse] != map[])
  {
    hide Paths;
    var inner := s.servers[nse] - del;
    assert inner.Keys == {} ==> inner == map[];
  }

  /** So an NSE whose last server has been deleted is forgotten: deleting again makes no VPP call. */
  lemma LastDeletionIsFinal(o: Oracle, lb: Address, s: State, nse: string, del: set<string>, more: set<string>)
    requires nse in s.servers && del != {} && s.servers[nse].Keys <= del
    ensures var s' := AfterDelete(o, lb, s, nse, del);
            nse !in s'.servers && s'.calls == s.calls + 1 && AfterDelete(o, lb, s', nse, more) == s'
  {
    hide Paths;
    assert (s.servers[nse] - del).Keys == {};
  }

  /** A call repairs the failure of the last update exactly if it attempts one and VPP accepts it; then the paths of
      everything called so far are installed. A call that attempts none leaves the old paths. */
  lemma FailureIsRepairedIff(o: Oracle, lb: Address, calls: seq<Call>, c: Call)
    requires !Run(o, lb, INITIAL, calls).lastOk
    ensures var s, s' := Run(o, lb, INITIAL, calls), Run(o, lb, INITIAL, calls + [c]);
            && (s'.lastOk <==> Attempts(s.servers, c) && o(s.calls).ok)
            && (s'.lastOk ==> s'.installed == Paths(lb, FoldAll(calls + [c])))
            && (!Attempts(s.servers, c) ==> s'.installed == s.installed)
  {
    hide Step, Paths, Attempts, FoldAll;
    RunAppend(o, lb, INITIAL, calls, c);
    StepAttempts(o, lb, Run(o, lb, INITIAL, calls), c);
    if Run(o, lb, INITIAL, calls + [c]).lastOk { InstalledPathsFollowFold(o, lb, calls + [c]); }
  }

  /** A call that attempts an update and succeeds repairs every earlier failure. */
  lemma OneSuccessRepairs(o: Oracle, lb: Address, calls: seq<Call>, c: Call)
    requires Attempts(Run(o, lb, INITIAL, calls).servers, c) && o(Run(o, lb, INITIAL, calls).calls).ok
    ensures Run(o, lb, INITIAL, calls + [c]).installed == Paths(lb, FoldAll(calls + [c]))
  {
    hide Step, Paths, Attempts, FoldAll;
    RunAppend(o, lb, INITIAL, calls, c);
    StepAttempts(o, lb, Run(o, lb, INITIAL, calls), c);
    InstalledPathsFollowFold(o, lb, calls + [c]);
  }

  /** Repeating an `addServers` call does nothing at all, so a failed update is not retried
      when the same servers are reported again. */
  lemma RepeatedAddIsNotRetried(o: Oracle, lb: Address, s: State, nse: string, add: map<string, Endpoint>)
    ensures var once := AfterAdd(o, lb, s, nse, add);
            AfterAdd(o, lb, once, nse, add) == once
  {
    var once := AfterAdd(o, lb, s, nse, add);
    var inner := Merge(Entry(s.servers, nse), add);
    assert Entry(once.servers, nse) == inner;
    forall k | k in add
      ensures !IsNews(inner, k, add[k])
    {
      EqualsIsEquivalence(add[k], add[k], add[k]);
    }
    assert Merge(inner, add) == inner;
    assert once.servers[nse := inner] == once.servers;
  }

  // ---- The program ----

  /** VPP's CNAT plugin as the handler uses it: translation 0 and its paths. */
  class Cnat {
    const oracle: Oracle
    var calls: nat
    var lastOk: bool
    ghost var installed: multiset<CnatEndpointTuple>

    constructor (oracle: Oracle)
      ensures this.oracle == oracle
      ensures calls == 0 && lastOk && installed == multiset{}
    {
      this.oracle := oracle;
      calls, lastOk, installed := 0, true, multiset{};
    }

    method TranslationUpdate(paths: seq<CnatEndpointTuple>) returns (ok: bool)
      modifies this
      ensures ok == lastOk == oracle(old(calls)).ok && calls == old(calls) + 1
      ensures installed == if ok then multiset(paths) else old(installed)
    {
      ok := oracle(calls).ok;
      calls, lastOk := calls + 1, ok;
      if ok { installed := multiset(paths); }
    }

    method TranslationDel() returns (ok: bool)
      modifies this
      ensures ok == lastOk == oracle(old(calls)).ok && calls == old(calls) + 1
      ensures installed == if ok then multiset{} else old(installed)
    {
      ok := oracle(calls).ok;
      calls, lastOk := calls + 1, ok;
      if ok { installed := multiset{}; }
    }
  }

  class Handler {
    const vpp: Cnat
    const lbAddr: Address
    var servers: Servers

    ghost function St(): State
      reads this, vpp
    {
      State(servers, vpp.installed, vpp.calls, vpp.lastOk)
    }

    constructor (vpp: Cnat, lbAddr: Address)
      ensures this.vpp == vpp && this.lbAddr == lbAddr && servers == map[]
    {
      this.vpp, this.lbAddr := vpp, lbAddr;
      servers := map[];
    }

    method AddServers(nse: string, add: map<string, Endpoint>) returns (ok: bool)
      modifies this, vpp
      ensures St() == AfterAdd(vpp.oracle, lbAddr, old(St()), nse, add)
      ensures ok <==> vpp.calls == old(vpp.calls) || vpp.lastOk
    {
      var updateRequired := StoreNews(nse, add);
      ok := true;
      if updateRequired {
        ok := UpdateVppCnat();
      }
    }

    /** The loop of `AddServers`, over the map in any order. */
    method StoreNews(nse: string, add: map<string, Endpoint>) returns (updateRequired: bool)
      modifies this
      ensures servers == old(servers)[nse := Merge(Entry(old(servers), nse), add)]
      ensures updateRequired <==> News(Entry(old(servers), nse), add) != {}
    {
      hide Equals, IsNews, Merge, News;
      updateRequired := false;
      ghost var before, inner := servers, Entry(servers, nse);
      ghost var done: map<string, Endpoint> := map[];
      if nse !in servers {
        servers := servers[nse := map[]];
      }
      var todo := add.Keys;
      MergeNothing(inner);
      while todo != {}
        invariant todo <= add.Keys
        invariant done == map k | k in add && k !in todo :: add[k]
        invariant servers == before[nse := Merge(inner, done)]
        invariant updateRequired <==> News(inner, done) != {}
      {
        var k :| k in todo;
        var realServers := servers[nse];
        NewsOneMore(inner, done, k, add[k]);
        StillNews(inner, done, k, add[k]);
        MergeOneMore(inner, done, k, add[k]);
        if IsNews(realServers, k, add[k]) {
          servers := servers[nse := realServers[k := add[k]]];
          updateRequired := true;
        }
        done := done[k := add[k]];
        todo := todo - {k};
      }
      assert done == add;
    }

    method DeleteServers(nse: string, del: seq<string>) returns (ok: bool)
      modifies this, vpp
      ensures St() == AfterDelete(vpp.oracle, lbAddr, old(St()), nse, Elements(del))
      ensures ok <==> vpp.calls == old(vpp.calls) || vpp.lastOk
    {
      if nse !in servers {
        return true;
      }
      ghost var before := servers;
      var updateRequired := false;
      assert Elements(del[..0]) == {} && before[nse] - {} == before[nse];
      assert before == before[nse := before[nse]];
      for i := 0 to |del|
        invariant unchanged(vpp)
        invariant servers == before[nse := before[nse] - Elements(del[..i])]
        invariant updateRequired <==> i > 0
      {
        servers := servers[nse := servers[nse] - {del[i]}];
        updateRequired := true;
        ElementsPrefix(del, i);
        assert before[nse] - Elements(del[..i + 1]) == before[nse] - Elements(del[..i]) - {del[i]};
      }
      assert del[..|del|] == del;
      assert del != [] ==> del[0] in Elements(del);
      ok := true;
      if updateRequired {
        if servers[nse].Keys == {} {
          servers := servers - {nse};
          assert servers == before - {nse};
        }
        ok := UpdateVppCnat();
      }
    }

    /** The ids of an NSE's servers, each once, in whatever order the map yields them. */
    method GetServerIDsByVL3Name(nse: string) returns (list: seq<string>)
      ensures Elements(list) == Entry(servers, nse).Keys
      ensures |list| == |Entry(servers, nse)|
    {
      list := [];
      if nse in servers {
        var todo := servers[nse].Keys;
        while todo != {}
          invariant todo <= servers[nse].Keys
          invariant Elements(list) == servers[nse].Keys - todo
          invariant |list| + |todo| == |servers[nse].Keys|
        {
          var k :| k in todo;
          ElementsAppend(list, k);
          list, todo := list + [k], todo - {k};
        }
      }
    }

    method CollectPaths() returns (paths: seq<CnatEndpointTuple>)
      ensures multiset(paths) == Paths(lbAddr, servers)
    {
      paths := [];
      var nses := servers.Keys;
      while nses != {}
        invariant nses <= servers.Keys
        invariant multiset(paths) + PathsOf(lbAddr, servers, nses) == Paths(lbAddr, servers)
      {
        var n :| n in nses;
        PathsOfSplit(lbAddr, servers, nses, n);
        nses := nses - {n};
        paths := AppendPaths(paths, servers[n]);
      }
    }

    /** The inner loop of `CollectPaths`. */
    method AppendPaths(soFar: seq<CnatEndpointTuple>, realServers: map<string, Endpoint>)
      returns (paths: seq<CnatEndpointTuple>)
      ensures multiset(paths) == multiset(soFar) + PathBag(lbAddr, realServers, realServers.Keys)
    {
      paths := soFar;
      var ids := realServers.Keys;
      while ids != {}
        invariant ids <= realServers.Keys
        invariant multiset(paths) + PathBag(lbAddr, realServers, ids)
                  == multiset(soFar) + PathBag(lbAddr, realServers, realServers.Keys)
      {
        var k :| k in ids;
        PathBagSplit(lbAddr, realServers, ids, k);
        paths, ids := paths + [PathTo(lbAddr, realServers[k])], ids - {k};
      }
    }

    method UpdateVppCnat() returns (ok: bool)
      modifies vpp
      ensures St() == AfterUpdate(vpp.oracle, lbAddr, old(St()))
      ensures ok == vpp.lastOk
    {
      var paths := CollectPaths();
      if |paths| == 0 {
        assert paths == [];
        ok := vpp.TranslationDel();
      } else {
        ok := vpp.TranslationUpdate(paths);
      }
    }
  }
}
