/** VRF tables shared by the connections of a network service, one for each address family
    (pkg/networkservice/vrf), configured with a common loopback interface for each service. */
module Vrf {
  import opened Vpp

  datatype Side = Side(conn: string, isClient: bool)

  datatype Info = Info(id: nat, attached: set<nat>)

  /** One address family: the shared entries, the table id in each side's metadata, VPP's tables, and the
      table VPP has each interface in. */
  datatype Family = Family(entries: map<string, Info>, md: map<Side, nat>, tables: set<nat>, bound: map<nat, nat>)

  datatype State = State(v4: Family, v6: Family, calls: nat)

  const EMPTY := Family(map[], map[], {}, map[])
  const INITIAL := State(EMPTY, EMPTY, 0)

  /** What is fixed: the service of a side's connection, the interface each side has, the loopback of each service. */
  datatype Config = Config(serviceOf: Side -> string, ownOf: Side -> nat, loopOf: string -> nat)

  ghost predicate Distinct(cfg: Config) {
    && (forall a, b :: cfg.ownOf(a) == cfg.ownOf(b) ==> a == b)
    && (forall n, m :: cfg.loopOf(n) == cfg.loopOf(m) ==> n == m)
    && (forall a, n :: cfg.ownOf(a) != cfg.loopOf(n))
    && (forall a :: cfg.serviceOf(a) != "")
  }

  // ---- Specification of the operations on one family ----

  function AfterCreate(o: Oracle, calls: nat, f: Family, side: Side, service: string): (Family, nat, bool) {
    if side in f.md then (f, calls, true)
    else if service in f.entries then (f.(md := f.md[side := f.entries[service].id]), calls, true)
    else if !o(calls).ok then (f, calls + 1, false)
    else
      var id := Allocate(f.tables, o(calls).hint);
      (Family(f.entries[service := Info(id, {})], f.md[side := id], f.tables + {id}, f.bound), calls + 1, true)
  }

  function AfterAttach(o: Oracle, calls: nat, f: Family, side: Side, service: string, swIfIndex: nat): (Family, nat, bool)
    requires service in f.entries
  {
    var info := f.entries[service];
    if swIfIndex in info.attached then (f, calls, true)
    else if !o(calls).ok then (f, calls + 1, false)
    else
      var id := if side in f.md then f.md[side] else 0;
      (f.(entries := f.entries[service := info.(attached := info.attached + {swIfIndex})], bound := f.bound[swIfIndex := id]),
       calls + 1, true)
  }

  /** The result of deleting the table is ignored. */
  function AfterDel(o: Oracle, calls: nat, f: Family, side: Side, service: string, own: nat): (Family, nat) {
    if side !in f.md || service !in f.entries then (f, calls)
    else
      var info := f.entries[service];
      var left := info.attached - {own};
      if |left| == 1
      then (f.(entries := f.entries - {service}, tables := if o(calls).ok then f.tables - {f.md[side]} else f.tables), calls + 1)
      else (f.(entries := f.entries[service := info.(attached := left)]), calls)
  }

  function Forget(f: Family, side: Side): Family {
    f.(md := f.md - {side})
  }

  // ---- Both families ----

  function AfterCreateBoth(o: Oracle, s: State, side: Side, service: string): (State, bool) {
    var (v4, calls4, ok4) := AfterCreate(o, s.calls, s.v4, side, service);
    if !ok4 then (State(v4, s.v6, calls4), false)
    else
      var (v6, calls6, ok6) := AfterCreate(o, calls4, s.v6, side, service);
      (State(v4, v6, calls6), ok6)
  }

  function AfterAttachBoth(o: Oracle, s: State, side: Side, service: string, swIfIndex: nat): (State, bool)
    requires service in s.v4.entries && service in s.v6.entries
  {
    var (v4, calls4, ok4) := AfterAttach(o, s.calls, s.v4, side, service, swIfIndex);
    if !ok4 then (State(v4, s.v6, calls4), false)
    else
      var (v6, calls6, ok6) := AfterAttach(o, calls4, s.v6, side, service, swIfIndex);
      (State(v4, v6, calls6), ok6)
  }

  function AfterDelBoth(o: Oracle, s: State, side: Side, service: string, own: nat): State {
    var (v6, calls6) := AfterDel(o, s.calls, s.v6, side, service, own);
    var (v4, calls4) := AfterDel(o, calls6, s.v4, side, service, own);
    State(v4, v6, calls4)
  }

  function AfterClose(o: Oracle, s: State, side: Side, service: string, own: nat): State {
    var s' := AfterDelBoth(o, s, side, service, own);
    State(Forget(s'.v4, side), Forget(s'.v6, side), s'.calls)
  }

  /** Interfaces are attached only by a request that finds neither table in the metadata. When the rest of the chain fails
      it returns no connection, so the name of the service that is cleaned up is empty. */
  function AfterRequest(o: Oracle, s: State, cfg: Config, side: Side, nextOk: bool): (State, bool)
    requires side in s.v4.md ==> cfg.serviceOf(side) in s.v4.entries
    requires side in s.v6.md ==> cfg.serviceOf(side) in s.v6.entries
  {
    var service, own := cfg.serviceOf(side), cfg.ownOf(side);
    var isNew := side !in s.v4.md && side !in s.v6.md;
    var (s1, ok1) := AfterCreateBoth(o, s, side, service);
    if !ok1 then (s1, false)
    else if !nextOk then (AfterClose(o, s1, side, "", own), false)
    else if !isNew then (s1, true)
    else
      var (s2, ok2) := AfterAttachBoth(o, s1, side, service, cfg.loopOf(service));
      if !ok2 then (AfterClose(o, s2, side, service, own), false)
      else
        var (s3, ok3) := AfterAttachBoth(o, s2, side, service, own);
        if !ok3 then (AfterClose(o, s3, side, service, own), false) else (s3, true)
  }

  // ---- Failed requests ----

  /** A request that fails after both tables are there, in the rest of the chain or at an attachment, leaves its side in
      neither family's metadata, and at an attachment its interface out of both entries. One that fails for want of a table keeps what it has got: the IPv4 table at most. */
  lemma FailedRequestForgets(o: Oracle, s: State, cfg: Config, side: Side, nextOk: bool)
    requires side !in s.v4.md && side !in s.v6.md
    ensures var (s', ok) := AfterRequest(o, s, cfg, side, nextOk);
            var service := cfg.serviceOf(side);
            var made4 := service in s.v4.entries || o(s.calls).ok;
            var made6 := service in s.v6.entries || o(s.calls + if service in s.v4.entries then 0 else 1).ok;
            && (ok ==> made4 && made6 && nextOk && side in s'.v4.md && side in s'.v6.md)
            && (!ok && made4 && made6 ==> side !in s'.v4.md && side !in s'.v6.md)
            && (!ok && made4 && made6 && nextOk && service in s'.v4.entries ==> cfg.ownOf(side) !in s'.v4.entries[service].attached)
            && (!ok && made4 && made6 && nextOk && service in s'.v6.entries ==> cfg.ownOf(side) !in s'.v6.entries[service].attached)
            && (!made4 ==> !ok && s'.v4 == s.v4 && s'.v6 == s.v6)
            && (made4 && !made6 ==> !ok && side in s'.v4.md && s'.v6 == s.v6)
  {
    hide AfterCreate, AfterCreateBoth, AfterAttachBoth, AfterDelBoth;
    var service, own := cfg.serviceOf(side), cfg.ownOf(side);
    BothMade(o, s, side, service);
    var (s1, ok1) := AfterCreateBoth(o, s, side, service);
    if ok1 {
      AttachKeepsMd(o, s1, side, service, cfg.loopOf(service));
      var (s2, ok2) := AfterAttachBoth(o, s1, side, service, cfg.loopOf(service));
      CloseDetaches(o, s2, side, service, own);
      if ok2 {
        AttachKeepsMd(o, s2, side, service, own);
        CloseDetaches(o, AfterAttachBoth(o, s2, side, service, own).0, side, service, own);
      }
    }
  }

  lemma CloseDetaches(o: Oracle, s: State, side: Side, service: string, own: nat)
    requires side in s.v4.md && side in s.v6.md
    ensures var s' := AfterDelBoth(o, s, side, service, own);
            && (service in s'.v4.entries ==> own !in s'.v4.entries[service].attached)
            && (service in s'.v6.entries ==> own !in s'.v6.entries[service].attached)
  {
  }

  /** A side that has got one family's table only, from a request that failed for want of the other, gets the other by a
      later request, but nothing is attached for it: only a request that finds neither table attaches. */
  lemma HalfOpenIsNotAttached(o: Oracle, s: State, cfg: Config, side: Side)
    requires (side in s.v4.md) != (side in s.v6.md)
    requires side in s.v4.md ==> cfg.serviceOf(side) in s.v4.entries
    requires side in s.v6.md ==> cfg.serviceOf(side) in s.v6.entries
    requires AfterRequest(o, s, cfg, side, true).1
    ensures var s' := AfterRequest(o, s, cfg, side, true).0;
            && side in s'.v4.md && side in s'.v6.md && s'.v4.bound == s.v4.bound && s'.v6.bound == s.v6.bound
            && (forall n :: n in s'.v4.entries ==> s'.v4.entries[n].attached == if n in s.v4.entries then s.v4.entries[n].attached else {})
            && (forall n :: n in s'.v6.entries ==> s'.v6.entries[n].attached == if n in s.v6.entries then s.v6.entries[n].attached else {})
  {
    hide FirstFree, AfterAttachBoth, AfterClose;
  }

  lemma BothMade(o: Oracle, s: State, side: Side, service: string)
    requires side !in s.v4.md && side !in s.v6.md
    ensures var (s1, ok) := AfterCreateBoth(o, s, side, service);
            var made4 := service in s.v4.entries || o(s.calls).ok;
            var made6 := service in s.v6.entries || o(s.calls + if service in s.v4.entries then 0 else 1).ok;
            && (ok <==> made4 && made6)
            && (ok ==> side in s1.v4.md && side in s1.v6.md && service in s1.v4.entries && service in s1.v6.entries)
            && (!made4 ==> s1.v4 == s.v4 && s1.v6 == s.v6)
            && (made4 && !made6 ==> side in s1.v4.md && s1.v6 == s.v6)
  {
    hide FirstFree;
  }

  lemma AttachKeepsMd(o: Oracle, s: State, side: Side, service: string, swIfIndex: nat)
    requires service in s.v4.entries && service in s.v6.entries
    ensures var s' := AfterAttachBoth(o, s, side, service, swIfIndex).0;
            && s'.v4.md == s.v4.md && s'.v6.md == s.v6.md
            && service in s'.v4.entries && service in s'.v6.entries
  {
  }

  // ---- What every step keeps ----

  /** The interfaces of the sides of `service` that are open. */
  ghost function OpenInterfaces(md: map<Side, nat>, cfg: Config, service: string): set<nat> {
    set side | side in md && cfg.serviceOf(side) == service :: cfg.ownOf(side)
  }

  /** VPP's tables are those of the entries, one for each. */
  ghost predicate OneTablePerEntry(f: Family) {
    && f.tables == (set n | n in f.entries :: f.entries[n].id)
    && forall n, m :: n in f.entries && m in f.entries && f.entries[n].id == f.entries[m].id ==> n == m
  }

  /** Every attached interface is in its entry's table. */
  ghost predicate WellBound(f: Family) {
    forall n, i :: n in f.entries && i in f.entries[n].attached ==> i in f.bound && f.bound[i] == f.entries[n].id
  }

  /** The metadata of an open side holds the table of its service's entry. */
  ghost predicate SidesInStep(entries: map<string, Info>, md: map<Side, nat>, cfg: Config) {
    forall side :: side in md ==> cfg.serviceOf(side) in entries && md[side] == entries[cfg.serviceOf(side)].id
  }

  /** An entry has an open side, and attached to it are the loopback and the interfaces of exactly the open sides. */
  ghost predicate EntryInStep(info: Info, md: map<Side, nat>, cfg: Config, n: string) {
    OpenInterfaces(md, cfg, n) != {} && info.attached == OpenInterfaces(md, cfg, n) + {cfg.loopOf(n)}
  }

  ghost predicate InStep(entries: map<string, Info>, md: map<Side, nat>, cfg: Config) {
    SidesInStep(entries, md, cfg) && forall n :: n in entries ==> EntryInStep(entries[n], md, cfg, n)
  }

  ghost predicate Clean(f: Family, cfg: Config) {
    OneTablePerEntry(f) && InStep(f.entries, f.md, cfg) && WellBound(f)
  }

  ghost predicate BothClean(s: State, cfg: Config) {
    Clean(s.v4, cfg) && Clean(s.v6, cfg) && s.v4.md.Keys == s.v6.md.Keys
  }

  lemma OpenInterfacesMore(md: map<Side, nat>, cfg: Config, side: Side, id: nat, service: string)
    requires side !in md
    ensures OpenInterfaces(md[side := id], cfg, service) ==
            OpenInterfaces(md, cfg, service) + if cfg.serviceOf(side) == service then {cfg.ownOf(side)} else {}
  {
    var md' := md[side := id];
    forall i | i in OpenInterfaces(md, cfg, service)
      ensures i in OpenInterfaces(md', cfg, service)
    {
      var a :| a in md && cfg.serviceOf(a) == service && cfg.ownOf(a) == i;
      assert a in md';
    }
    assert side in md';
  }

  lemma OpenInterfacesFewer(md: map<Side, nat>, cfg: Config, side: Side, service: string)
    requires Distinct(cfg) && side in md
    ensures OpenInterfaces(md - {side}, cfg, service) == OpenInterfaces(md, cfg, service) - {cfg.ownOf(side)}
    ensures cfg.serviceOf(side) != service ==> cfg.ownOf(side) !in OpenInterfaces(md, cfg, service)
  {
    var md' := md - {side};
    forall i | i in OpenInterfaces(md, cfg, service) - {cfg.ownOf(side)}
      ensures i in OpenInterfaces(md', cfg, service)
    {
      var a :| a in md && cfg.serviceOf(a) == service && cfg.ownOf(a) == i;
      assert a in md';
    }
  }

  // ---- Opening ----

  ghost predicate Created(f: Family, f': Family, side: Side, service: string) {
    && side in f'.md && f'.md == f.md[side := f'.md[side]] && f'.bound == f.bound
    && (if service in f.entries
        then f'.md[side] == f.entries[service].id && f'.entries == f.entries && f'.tables == f.tables
        else f'.md[side] !in f.tables && f'.entries == f.entries[service := Info(f'.md[side], {})] &&
             f'.tables == f.tables + {f'.md[side]})
  }

  ghost predicate Attached(f: Family, f': Family, side: Side, service: string, i: nat)
    requires service in f.entries && side in f.md
  {
    && f'.md == f.md && f'.tables == f.tables
    && f'.entries == f.entries[service := Info(f.md[side], f.entries[service].attached + {i})]
    && f'.bound == if i in f.entries[service].attached then f.bound else f.bound[i := f.md[side]]
  }

  /** The three steps of a first request in one family when nothing fails. */
  ghost predicate OpenedBy(f: Family, f1: Family, f2: Family, f': Family, cfg: Config, side: Side) {
    var service := cfg.serviceOf(side);
    && Created(f, f1, side, service)
    && service in f1.entries && side in f1.md && Attached(f1, f2, side, service, cfg.loopOf(service))
    && service in f2.entries && side in f2.md && Attached(f2, f', side, service, cfg.ownOf(side))
  }

  ghost predicate Opened(f: Family, f': Family, cfg: Config, side: Side) {
    exists f1, f2 :: OpenedBy(f, f1, f2, f', cfg, side)
  }

  lemma CreateSucceeds(o: Oracle, calls: nat, f: Family, side: Side, service: string)
    requires NeverFails(o) && side !in f.md
    ensures var (f', calls', ok) := AfterCreate(o, calls, f, side, service);
            ok && Created(f, f', side, service)
  {
    hide FirstFree;
  }

  lemma AttachSucceeds(o: Oracle, calls: nat, f: Family, side: Side, service: string, i: nat)
    requires NeverFails(o) && service in f.entries && side in f.md && f.md[side] == f.entries[service].id
    ensures var (f', calls', ok) := AfterAttach(o, calls, f, side, service, i);
            ok && Attached(f, f', side, service, i)
  {
    var info := f.entries[service];
    if i in info.attached {
      assert info.attached + {i} == info.attached;
      assert f.entries[service := Info(f.md[side], info.attached)] == f.entries;
    }
  }

  lemma CreatedIds(f: Family, f': Family, cfg: Config, side: Side)
    requires Created(f, f', side, cfg.serviceOf(side))
    ensures var n := cfg.serviceOf(side);
            n in f'.entries && side in f'.md && f'.md[side] == f'.entries[n].id
  {
  }

  lemma AttachedIds(f: Family, f': Family, side: Side, service: string, i: nat)
    requires service in f.entries && side in f.md && Attached(f, f', side, service, i)
    ensures service in f'.entries && side in f'.md && f'.md[side] == f'.entries[service].id
  {
  }

  /** Table and attachments of one family, one after the other. */
  lemma OpenFamily(o: Oracle, calls1: nat, calls2: nat, calls3: nat, f: Family, cfg: Config, side: Side)
    requires NeverFails(o) && side !in f.md
    ensures var service := cfg.serviceOf(side);
            var (f1, _, ok1) := AfterCreate(o, calls1, f, side, service);
            && ok1 && service in f1.entries
            && var (f2, _, ok2) := AfterAttach(o, calls2, f1, side, service, cfg.loopOf(service));
            && ok2 && service in f2.entries
            && var (f3, _, ok3) := AfterAttach(o, calls3, f2, side, service, cfg.ownOf(side));
            ok3 && Opened(f, f3, cfg, side)
  {
    var service, own, loop := cfg.serviceOf(side), cfg.ownOf(side), cfg.loopOf(cfg.serviceOf(side));
    hide AfterCreate, AfterAttach, Created, Attached;
    CreateSucceeds(o, calls1, f, side, service);
    var (f1, _, ok1) := AfterCreate(o, calls1, f, side, service);
    CreatedIds(f, f1, cfg, side);
    AttachSucceeds(o, calls2, f1, side, service, loop);
    var (f2, _, ok2) := AfterAttach(o, calls2, f1, side, service, loop);
    AttachedIds(f1, f2, side, service, loop);
    AttachSucceeds(o, calls3, f2, side, service, own);
    var (f3, _, ok3) := AfterAttach(o, calls3, f2, side, service, own);
    assert OpenedBy(f, f1, f2, f3, cfg, side);
  }

  /** The tables of a family after a first request. */
  lemma CreatedKeepsTables(f: Family, f': Family, side: Side, service: string)
    requires OneTablePerEntry(f) && Created(f, f', side, service)
    ensures OneTablePerEntry(f')
  {
    if service !in f.entries {
      assert forall n :: n in f.entries ==> f'.entries[n] == f.entries[n];
      assert f'.entries[service].id == f'.md[side];
    }
  }

  lemma AttachedKeepsTables(f: Family, f': Family, side: Side, service: string, i: nat)
    requires OneTablePerEntry(f) && service in f.entries && side in f.md && f.md[side] == f.entries[service].id
    requires Attached(f, f', side, service, i)
    ensures OneTablePerEntry(f')
  {
    assert forall n :: n in f.entries ==> f'.entries[n].id == f.entries[n].id;
    assert f'.entries.Keys == f.entries.Keys;
  }

  lemma AttachedKeepsBound(f: Family, f': Family, side: Side, service: string, i: nat)
    requires WellBound(f) && service in f.entries && side in f.md && f.md[side] == f.entries[service].id
    requires Attached(f, f', side, service, i)
    requires forall n :: n in f.entries && n != service ==> i !in f.entries[n].attached
    ensures WellBound(f')
  {
  }

  /** Nothing of this side is attached under another service. */
  lemma AttachedElsewhere(f: Family, cfg: Config, side: Side, n: string)
    requires Distinct(cfg) && InStep(f.entries, f.md, cfg) && n in f.entries && n != cfg.serviceOf(side)
    ensures cfg.ownOf(side) !in f.entries[n].attached && cfg.loopOf(cfg.serviceOf(side)) !in f.entries[n].attached
  {
  }

  ghost function Joined(entries: map<string, Info>, cfg: Config, side: Side, id: nat): Info {
    var service := cfg.serviceOf(side);
    Info(id, (if service in entries then entries[service].attached else {}) + {cfg.loopOf(service)} + {cfg.ownOf(side)})
  }

  lemma JoinedIsInStep(entries: map<string, Info>, md: map<Side, nat>, cfg: Config, side: Side, id: nat)
    requires InStep(entries, md, cfg) && side !in md
    ensures EntryInStep(Joined(entries, cfg, side, id), md[side := id], cfg, cfg.serviceOf(side))
  {
    var service := cfg.serviceOf(side);
    assert service !in entries ==> OpenInterfaces(md, cfg, service) == {};
    hide OpenInterfaces;
    OpenInterfacesMore(md, cfg, side, id, service);
  }

  lemma OpenedKeepsInStep(entries: map<string, Info>, md: map<Side, nat>, cfg: Config, side: Side, id: nat)
    requires InStep(entries, md, cfg) && side !in md
    requires cfg.serviceOf(side) in entries ==> id == entries[cfg.serviceOf(side)].id
    ensures InStep(entries[cfg.serviceOf(side) := Joined(entries, cfg, side, id)], md[side := id], cfg)
  {
    var service := cfg.serviceOf(side);
    var entries', md' := entries[service := Joined(entries, cfg, side, id)], md[side := id];
    assert SidesInStep(entries', md', cfg);
    JoinedIsInStep(entries, md, cfg, side, id);
    hide OpenInterfaces, SidesInStep, Joined;
    forall n | n in entries && n != service
      ensures EntryInStep(entries[n], md', cfg, n)
    {
      OpenInterfacesMore(md, cfg, side, id, n);
    }
  }

  /** After a first request the family is clean again, with one more open side. */
  lemma OpenedIsClean(f: Family, f': Family, cfg: Config, side: Side)
    requires Distinct(cfg) && Clean(f, cfg) && side !in f.md && Opened(f, f', cfg, side)
    ensures Clean(f', cfg) && f'.md.Keys == f.md.Keys + {side}
  {
    hide Created, Attached, OneTablePerEntry, WellBound, InStep, Joined, OpenedBy;
    var f1, f2 :| OpenedBy(f, f1, f2, f', cfg, side);
    OpenedEntries(f, f1, f2, f', cfg, side);
    OpenedKeepsTables(f, f1, f2, f', cfg, side);
    OpenedKeepsBound(f, f1, f2, f', cfg, side);
    OpenedKeepsInStep(f.entries, f.md, cfg, side, f1.md[side]);
  }

  lemma OpenedEntries(f: Family, f1: Family, f2: Family, f': Family, cfg: Config, side: Side)
    requires OpenedBy(f, f1, f2, f', cfg, side)
    ensures side in f1.md && f'.md == f.md[side := f1.md[side]]
    ensures cfg.serviceOf(side) in f.entries ==> f1.md[side] == f.entries[cfg.serviceOf(side)].id
    ensures f'.entries == f.entries[cfg.serviceOf(side) := Joined(f.entries, cfg, side, f1.md[side])]
  {
  }

  lemma OpenedKeepsTables(f: Family, f1: Family, f2: Family, f': Family, cfg: Config, side: Side)
    requires OneTablePerEntry(f)
    requires OpenedBy(f, f1, f2, f', cfg, side)
    ensures OneTablePerEntry(f')
  {
    var service := cfg.serviceOf(side);
    hide OneTablePerEntry, Created, Attached;
    CreatedKeepsTables(f, f1, side, service);
    CreatedIds(f, f1, cfg, side);
    AttachedKeepsTables(f1, f2, side, service, cfg.loopOf(service));
    AttachedIds(f1, f2, side, service, cfg.loopOf(service));
    AttachedKeepsTables(f2, f', side, service, cfg.ownOf(side));
  }

  lemma OpenedKeepsBound(f: Family, f1: Family, f2: Family, f': Family, cfg: Config, side: Side)
    requires Distinct(cfg) && WellBound(f) && InStep(f.entries, f.md, cfg)
    requires OpenedBy(f, f1, f2, f', cfg, side)
    ensures WellBound(f')
  {
    var service := cfg.serviceOf(side);
    CreatedKeepsBound(f, f1, cfg, side);
    CreatedIds(f, f1, cfg, side);
    AttachedIds(f1, f2, side, service, cfg.loopOf(service));
    assert forall n :: n in f2.entries && n != service ==> n in f1.entries && f2.entries[n] == f1.entries[n];
    hide Created, Attached, WellBound, InStep;
    AttachedKeepsBound(f1, f2, side, service, cfg.loopOf(service));
    AttachedKeepsBound(f2, f', side, service, cfg.ownOf(side));
  }

  lemma CreatedKeepsBound(f: Family, f1: Family, cfg: Config, side: Side)
    requires Distinct(cfg) && WellBound(f) && InStep(f.entries, f.md, cfg) && Created(f, f1, side, cfg.serviceOf(side))
    ensures WellBound(f1)
    ensures forall n :: n in f1.entries && n != cfg.serviceOf(side) ==>
              cfg.ownOf(side) !in f1.entries[n].attached && cfg.loopOf(cfg.serviceOf(side)) !in f1.entries[n].attached
  {
    var service := cfg.serviceOf(side);
    hide InStep;
    forall n | n in f1.entries && n != service
      ensures cfg.ownOf(side) !in f1.entries[n].attached && cfg.loopOf(service) !in f1.entries[n].attached
    {
      AttachedElsewhere(f, cfg, side, n);
    }
  }

  // ---- Closing ----

  ghost predicate AnotherOpen(md: map<Side, nat>, cfg: Config, side: Side) {
    exists other :: other in md && other != side && cfg.serviceOf(other) == cfg.serviceOf(side)
  }

  /** What closing an open side makes of one family when nothing fails. */
  ghost predicate Closed(f: Family, f': Family, cfg: Config, side: Side) {
    var service := cfg.serviceOf(side);
    && service in f.entries && f'.md == f.md - {side} && f'.bound == f.bound
    && (if AnotherOpen(f.md, cfg, side)
        then f'.tables == f.tables &&
             f'.entries == f.entries[service := f.entries[service].(attached := f.entries[service].attached - {cfg.ownOf(side)})]
        else f'.tables == f.tables - {f.entries[service].id} && f'.entries == f.entries - {service})
  }

  lemma OthersOpen(md: map<Side, nat>, cfg: Config, side: Side)
    requires side in md
    ensures AnotherOpen(md, cfg, side) <==> OpenInterfaces(md - {side}, cfg, cfg.serviceOf(side)) != {}
  {
    var service, md' := cfg.serviceOf(side), md - {side};
    if AnotherOpen(md, cfg, side) {
      var other :| other in md && other != side && cfg.serviceOf(other) == service;
      assert other in md' && cfg.ownOf(other) in OpenInterfaces(md', cfg, service);
    }
    if i :| i in OpenInterfaces(md', cfg, service) {
      var other :| other in md' && cfg.serviceOf(other) == service && cfg.ownOf(other) == i;
      assert other in md && other != side;
    }
  }

  /** With its own interface gone, one interface is left (the loopback) exactly when no other side is open. */
  lemma LastOneLeft(info: Info, md: map<Side, nat>, cfg: Config, side: Side)
    requires Distinct(cfg) && side in md && EntryInStep(info, md, cfg, cfg.serviceOf(side))
    ensures |info.attached - {cfg.ownOf(side)}| == 1 <==> !AnotherOpen(md, cfg, side)
    ensures info.attached - {cfg.ownOf(side)} == OpenInterfaces(md - {side}, cfg, cfg.serviceOf(side)) + {cfg.loopOf(cfg.serviceOf(side))}
  {
    var service := cfg.serviceOf(side);
    var others, left := OpenInterfaces(md - {side}, cfg, service), info.attached - {cfg.ownOf(side)};
    assert cfg.loopOf(service) !in others;
    hide OpenInterfaces, AnotherOpen;
    OpenInterfacesFewer(md, cfg, side, service);
    OthersOpen(md, cfg, side);
    assert left == others + {cfg.loopOf(service)};
  }

  lemma CloseFamily(o: Oracle, calls: nat, f: Family, cfg: Config, side: Side)
    requires NeverFails(o) && Distinct(cfg) && Clean(f, cfg) && side in f.md
    ensures Closed(f, Forget(AfterDel(o, calls, f, side, cfg.serviceOf(side), cfg.ownOf(side)).0, side), cfg, side)
  {
    var service := cfg.serviceOf(side);
    assert EntryInStep(f.entries[service], f.md, cfg, service);
    assert f.md[side] == f.entries[service].id;
    hide Clean, EntryInStep, AnotherOpen;
    LastOneLeft(f.entries[service], f.md, cfg, side);
  }

  lemma ClosedIsClean(f: Family, f': Family, cfg: Config, side: Side)
    requires Distinct(cfg) && Clean(f, cfg) && side in f.md && Closed(f, f', cfg, side)
    ensures Clean(f', cfg) && f'.md == f.md - {side}
  {
    assert f'.md == f.md - {side};
    hide OneTablePerEntry, WellBound, Closed, InStep;
    ClosedKeepsTables(f, f', cfg, side);
    ClosedKeepsBound(f, f', cfg, side);
    ClosedKeepsInStep(f, f', cfg, side);
  }

  lemma ClosedKeepsBound(f: Family, f': Family, cfg: Config, side: Side)
    requires WellBound(f) && Closed(f, f', cfg, side)
    ensures WellBound(f')
  {
    hide AnotherOpen;
  }

  lemma ClosedKeepsTables(f: Family, f': Family, cfg: Config, side: Side)
    requires OneTablePerEntry(f) && Closed(f, f', cfg, side)
    ensures OneTablePerEntry(f')
  {
    hide AnotherOpen;
    assert forall n :: n in f'.entries ==> f'.entries[n].id == f.entries[n].id;
    var ids := set n | n in f'.entries :: f'.entries[n].id;
    forall id | id in f'.tables
      ensures id in ids
    {
      var n :| n in f.entries && f.entries[n].id == id;
      assert n in f'.entries;
    }
  }

  lemma ClosedKeepsInStep(f: Family, f': Family, cfg: Config, side: Side)
    requires Distinct(cfg) && InStep(f.entries, f.md, cfg) && side in f.md && Closed(f, f', cfg, side)
    ensures InStep(f'.entries, f'.md, cfg)
  {
    ClosedKeepsSides(f, f', cfg, side);
    hide AnotherOpen, SidesInStep, EntryInStep;
    var service := cfg.serviceOf(side);
    forall n | n in f'.entries
      ensures EntryInStep(f'.entries[n], f'.md, cfg, n)
    {
      if n == service {
        OwnEntryStaysInStep(f.entries[n], f.md, cfg, side);
      } else {
        OtherEntryStaysInStep(f.entries[n], f.md, cfg, side, n);
      }
    }
  }

  lemma OwnEntryStaysInStep(info: Info, md: map<Side, nat>, cfg: Config, side: Side)
    requires Distinct(cfg) && side in md && EntryInStep(info, md, cfg, cfg.serviceOf(side)) && AnotherOpen(md, cfg, side)
    ensures EntryInStep(info.(attached := info.attached - {cfg.ownOf(side)}), md - {side}, cfg, cfg.serviceOf(side))
  {
    LastOneLeft(info, md, cfg, side);
    OthersOpen(md, cfg, side);
  }

  lemma OtherEntryStaysInStep(info: Info, md: map<Side, nat>, cfg: Config, side: Side, n: string)
    requires Distinct(cfg) && side in md && EntryInStep(info, md, cfg, n) && n != cfg.serviceOf(side)
    ensures EntryInStep(info, md - {side}, cfg, n)
  {
    OpenInterfacesFewer(md, cfg, side, n);
  }

  lemma ClosedKeepsSides(f: Family, f': Family, cfg: Config, side: Side)
    requires SidesInStep(f.entries, f.md, cfg) && side in f.md && Closed(f, f', cfg, side)
    ensures SidesInStep(f'.entries, f'.md, cfg)
  {
    forall a | a in f'.md
      ensures cfg.serviceOf(a) in f'.entries && f'.md[a] == f'.entries[cfg.serviceOf(a)].id
    {
      assert a in f.md && a != side;
    }
  }

  // ---- Failed requests ----

  /** A request that the rest of the chain fails cleans up under the empty service name: the metadata is
      forgotten, the entry stays as it is, even a new one. */
  lemma FailedFamily(o: Oracle, calls1: nat, calls2: nat, f: Family, cfg: Config, side: Side)
    requires NeverFails(o) && Distinct(cfg) && Clean(f, cfg)
    ensures var (f1, _, ok1) := AfterCreate(o, calls1, f, side, cfg.serviceOf(side));
            var (f2, _) := AfterDel(o, calls2, f1, side, "", cfg.ownOf(side));
            && ok1
            && (side !in f.md && cfg.serviceOf(side) in f.entries ==> Forget(f2, side) == f)
            && (side !in f.md && cfg.serviceOf(side) !in f.entries ==> !Clean(Forget(f2, side), cfg))
            && (side in f.md ==> !Clean(Forget(f2, side), cfg))
  {
    NoUnnamedService(f, cfg);
    hide Clean, AfterCreate, AfterDel, Distinct;
    if side in f.md {
      RepeatedCreate(o, calls1, f, side, cfg.serviceOf(side));
      UnnamedDel(o, calls2, f, side, cfg.ownOf(side));
      OwnStaysAttached(f, Forget(f, side), cfg, side);
    } else {
      FailedFirst(o, calls1, calls2, f, cfg, side);
    }
  }

  lemma UnnamedDel(o: Oracle, calls: nat, f: Family, side: Side, own: nat)
    requires "" !in f.entries
    ensures AfterDel(o, calls, f, side, "", own) == (f, calls)
  {
  }

  lemma FailedFirst(o: Oracle, calls1: nat, calls2: nat, f: Family, cfg: Config, side: Side)
    requires NeverFails(o) && Distinct(cfg) && Clean(f, cfg) && side !in f.md && "" !in f.entries
    ensures var (f1, _, ok1) := AfterCreate(o, calls1, f, side, cfg.serviceOf(side));
            var (f2, _) := AfterDel(o, calls2, f1, side, "", cfg.ownOf(side));
            ok1 && if cfg.serviceOf(side) in f.entries then Forget(f2, side) == f else !Clean(Forget(f2, side), cfg)
  {
    var service := cfg.serviceOf(side);
    hide Clean, FirstFree, AfterDel;
    CreateSucceeds(o, calls1, f, side, service);
    var f1 := AfterCreate(o, calls1, f, side, service).0;
    UnnamedDel(o, calls2, f1, side, cfg.ownOf(side));
    assert Forget(f1, side).md == f.md;
    if service !in f.entries { NoEntryWithoutSide(f, Forget(f1, side), cfg, side); }
  }

  lemma RepeatedCreate(o: Oracle, calls: nat, f: Family, side: Side, service: string)
    requires side in f.md
    ensures AfterCreate(o, calls, f, side, service) == (f, calls, true)
  {
  }

  lemma NoEntryWithoutSide(f: Family, f': Family, cfg: Config, side: Side)
    requires Clean(f, cfg) && side !in f.md && cfg.serviceOf(side) !in f.entries
    requires f'.md == f.md && cfg.serviceOf(side) in f'.entries
    ensures !Clean(f', cfg)
  {
    var service := cfg.serviceOf(side);
    assert OpenInterfaces(f.md, cfg, service) == {};
    assert !EntryInStep(f'.entries[service], f'.md, cfg, service);
  }

  lemma NoUnnamedService(f: Family, cfg: Config)
    requires Distinct(cfg) && Clean(f, cfg)
    ensures "" !in f.entries
  {
    assert OpenInterfaces(f.md, cfg, "") == {};
  }

  lemma OwnStaysAttached(f: Family, f': Family, cfg: Config, side: Side)
    requires Distinct(cfg) && Clean(f, cfg) && side in f.md && f'.entries == f.entries && f'.md == f.md - {side}
    ensures !Clean(f', cfg)
  {
    var service := cfg.serviceOf(side);
    assert EntryInStep(f.entries[service], f.md, cfg, service);
    OpenInterfacesFewer(f.md, cfg, side, service);
    assert cfg.ownOf(side) in OpenInterfaces(f.md, cfg, service);
    assert !EntryInStep(f'.entries[service], f'.md, cfg, service);
  }

  // ---- Runs ----

  datatype Action = Request(side: Side, nextOk: bool) | Close(side: Side)

  ghost function Step(o: Oracle, s: State, cfg: Config, a: Action): State
    requires BothClean(s, cfg)
  {
    match a
    case Request(side, nextOk) => AfterRequest(o, s, cfg, side, nextOk).0
    case Close(side) => AfterClose(o, s, side, cfg.serviceOf(side), cfg.ownOf(side))
  }

  /** A request that fails further down does no harm exactly when it is the first one of its side and
      the service already has an entry. */
  predicate Harmless(s: State, cfg: Config, a: Action) {
    a.Request? && !a.nextOk ==> a.side !in s.v4.md && cfg.serviceOf(a.side) in s.v4.entries
  }

  lemma OpenKeepsClean(o: Oracle, s: State, cfg: Config, side: Side)
    requires NeverFails(o) && Distinct(cfg) && BothClean(s, cfg)
    ensures BothClean(AfterRequest(o, s, cfg, side, true).0, cfg)
    ensures AfterRequest(o, s, cfg, side, true).0.v4.md.Keys == s.v4.md.Keys + {side}
  {
    if side in s.v4.md {
      assert AfterRequest(o, s, cfg, side, true).0 == s;
    } else {
      var s' := AfterRequest(o, s, cfg, side, true).0;
      FirstRequestOpens(o, s, cfg, side);
      hide AfterRequest, Opened, Clean;
      OpenedIsClean(s.v4, s'.v4, cfg, side);
      OpenedIsClean(s.v6, s'.v6, cfg, side);
    }
  }

  lemma FirstRequestOpens(o: Oracle, s: State, cfg: Config, side: Side)
    requires NeverFails(o) && side !in s.v4.md && side !in s.v6.md
    ensures var (s', ok) := AfterRequest(o, s, cfg, side, true);
            ok && Opened(s.v4, s'.v4, cfg, side) && Opened(s.v6, s'.v6, cfg, side)
  {
    hide AfterCreate, AfterAttach, Opened, AfterClose;
    var service, own, loop := cfg.serviceOf(side), cfg.ownOf(side), cfg.loopOf(cfg.serviceOf(side));
    var c1 := s.calls;
    var c2 := AfterCreate(o, c1, s.v4, side, service).1;
    var c3 := AfterCreate(o, c2, s.v6, side, service).1;
    OpenFamily(o, c1, c3, c3, s.v4, cfg, side);
    var v4 := AfterAttach(o, c3, AfterCreate(o, c1, s.v4, side, service).0, side, service, loop);
    OpenFamily(o, c2, v4.1, v4.1, s.v6, cfg, side);
    var v6 := AfterAttach(o, v4.1, AfterCreate(o, c2, s.v6, side, service).0, side, service, loop);
    OpenFamily(o, c1, c3, v6.1, s.v4, cfg, side);
    var w4 := AfterAttach(o, v6.1, v4.0, side, service, own);
    OpenFamily(o, c2, v4.1, w4.1, s.v6, cfg, side);
  }

  lemma CloseKeepsClean(o: Oracle, s: State, cfg: Config, side: Side)
    requires NeverFails(o) && Distinct(cfg) && BothClean(s, cfg)
    ensures BothClean(AfterClose(o, s, side, cfg.serviceOf(side), cfg.ownOf(side)), cfg)
  {
    hide AfterClose, Closed, Clean;
    if side in s.v4.md {
      CloseIsClosed(o, s, cfg, side);
      var s' := AfterClose(o, s, side, cfg.serviceOf(side), cfg.ownOf(side));
      ClosedIsClean(s.v4, s'.v4, cfg, side);
      ClosedIsClean(s.v6, s'.v6, cfg, side);
    } else {
      CloseOfClosedSide(o, s, side, cfg.serviceOf(side), cfg.ownOf(side));
    }
  }

  lemma CloseOfClosedSide(o: Oracle, s: State, side: Side, service: string, own: nat)
    requires side !in s.v4.md && side !in s.v6.md
    ensures AfterClose(o, s, side, service, own) == s
  {
    assert s.v4.md - {side} == s.v4.md && s.v6.md - {side} == s.v6.md;
  }

  lemma CloseIsClosed(o: Oracle, s: State, cfg: Config, side: Side)
    requires NeverFails(o) && Distinct(cfg) && BothClean(s, cfg) && side in s.v4.md
    ensures var s' := AfterClose(o, s, side, cfg.serviceOf(side), cfg.ownOf(side));
            Closed(s.v4, s'.v4, cfg, side) && Closed(s.v6, s'.v6, cfg, side)
  {
    hide AfterDel, Clean, Closed, Forget;
    var calls := AfterDel(o, s.calls, s.v6, side, cfg.serviceOf(side), cfg.ownOf(side)).1;
    CloseFamily(o, s.calls, s.v6, cfg, side);
    CloseFamily(o, calls, s.v4, cfg, side);
  }

  /** When an open side closes, in both families alike, entry and table go exactly if no other side of the
      service is open. */
  lemma LastCloseDeletesTables(o: Oracle, s: State, cfg: Config, side: Side)
    requires NeverFails(o) && Distinct(cfg) && BothClean(s, cfg) && side in s.v4.md
    ensures var service := cfg.serviceOf(side);
            var s' := AfterClose(o, s, side, service, cfg.ownOf(side));
            && service in s.v4.entries && service in s.v6.entries
            && (service !in s'.v4.entries <==> !AnotherOpen(s.v4.md, cfg, side))
            && (service !in s'.v6.entries <==> !AnotherOpen(s.v4.md, cfg, side))
            && (s.v4.entries[service].id !in s'.v4.tables <==> !AnotherOpen(s.v4.md, cfg, side))
            && (s.v6.entries[service].id !in s'.v6.tables <==> !AnotherOpen(s.v4.md, cfg, side))
  {
    var service := cfg.serviceOf(side);
    assert s.v4.entries[service].id in s.v4.tables && s.v6.entries[service].id in s.v6.tables;
    assert AnotherOpen(s.v6.md, cfg, side) <==> AnotherOpen(s.v4.md, cfg, side);
    hide AfterClose, Clean, AnotherOpen;
    CloseIsClosed(o, s, cfg, side);
  }

  /** A failed request keeps both families clean exactly when it is harmless. */
  lemma FailedRequestCleanIff(o: Oracle, s: State, cfg: Config, side: Side)
    requires NeverFails(o) && Distinct(cfg) && BothClean(s, cfg)
    ensures BothClean(AfterRequest(o, s, cfg, side, false).0, cfg) <==> Harmless(s, cfg, Request(side, false))
  {
    var service, own := cfg.serviceOf(side), cfg.ownOf(side);
    SameServices(s, cfg);
    var c2 := AfterCreate(o, s.calls, s.v4, side, service).1;
    var (v6, c3, _) := AfterCreate(o, c2, s.v6, side, service);
    var c4 := AfterDel(o, c3, v6, side, "", own).1;
    FailedFamily(o, s.calls, c4, s.v4, cfg, side);
    FailedFamily(o, c2, c3, s.v6, cfg, side);
    hide AfterCreate, AfterDel, Clean;
    assert AfterCreateBoth(o, s, side, service).1;
  }

  /** Both families have entries for the same services. */
  lemma SameServices(s: State, cfg: Config)
    requires BothClean(s, cfg)
    ensures s.v4.entries.Keys == s.v6.entries.Keys
    ensures forall n :: n in s.v4.entries ==> s.v4.entries[n].attached == s.v6.entries[n].attached
  {
    forall n
      ensures OpenInterfaces(s.v4.md, cfg, n) == OpenInterfaces(s.v6.md, cfg, n)
    {
    }
    forall n
      ensures n in s.v4.entries <==> n in s.v6.entries
      ensures n in s.v4.entries ==> EntryInStep(s.v4.entries[n], s.v4.md, cfg, n)
      ensures n in s.v6.entries ==> EntryInStep(s.v6.entries[n], s.v6.md, cfg, n)
    {
    }
  }

  /** In every failure-free run, each step keeps both families clean exactly when it is harmless. */
  lemma StepCleanIff(o: Oracle, s: State, cfg: Config, a: Action)
    requires NeverFails(o) && Distinct(cfg) && BothClean(s, cfg)
    ensures BothClean(Step(o, s, cfg, a), cfg) <==> Harmless(s, cfg, a)
  {
    match a
    case Close(side) => CloseKeepsClean(o, s, cfg, side);
    case Request(side, nextOk) =>
      if nextOk { OpenKeepsClean(o, s, cfg, side); } else { FailedRequestCleanIff(o, s, cfg, side); }
  }

  /** The states of a run in which every request that fails further down is harmless. */
  ghost predicate HarmlessRun(o: Oracle, cfg: Config, trace: seq<State>, actions: seq<Action>) {
    && |trace| == |actions| + 1 && trace[0] == INITIAL
    && forall i :: 0 <= i < |actions| && BothClean(trace[i], cfg) ==>
         Harmless(trace[i], cfg, actions[i]) && trace[i + 1] == Step(o, trace[i], cfg, actions[i])
  }

  /** In every state of such a run both families are clean and in lockstep. */
  lemma {:induction false} RunKeepsClean(o: Oracle, cfg: Config, trace: seq<State>, actions: seq<Action>, i: nat)
    requires NeverFails(o) && Distinct(cfg) && HarmlessRun(o, cfg, trace, actions) && i <= |actions|
    ensures BothClean(trace[i], cfg)
    ensures trace[i].v4.entries.Keys == trace[i].v6.entries.Keys
    ensures forall n :: n in trace[i].v4.entries ==> trace[i].v4.entries[n].attached == trace[i].v6.entries[n].attached
  {
    hide Step, BothClean, Harmless;
    if i == 0 {
      InitiallyClean(cfg);
    } else {
      RunKeepsClean(o, cfg, trace, actions, i - 1);
      StepCleanIff(o, trace[i - 1], cfg, actions[i - 1]);
    }
    SameServices(trace[i], cfg);
  }

  lemma InitiallyClean(cfg: Config)
    ensures BothClean(INITIAL, cfg)
  {
  }

  /** When a later request of the only open side fails further down, closing the connection afterwards deletes
      nothing: entry and table stay although no side is open. */
  lemma FailedRefreshStrandsTables(o: Oracle, s: State, cfg: Config, side: Side)
    requires NeverFails(o) && Distinct(cfg) && BothClean(s, cfg) && side in s.v4.md
    ensures var s1 := AfterRequest(o, s, cfg, side, false).0;
            var s2 := AfterClose(o, s1, side, cfg.serviceOf(side), cfg.ownOf(side));
            && s2.v4.md == s.v4.md - {side} && s2.v4.entries == s.v4.entries && s2.v4.tables == s.v4.tables
            && s2.v6.md == s.v6.md - {side} && s2.v6.entries == s.v6.entries && s2.v6.tables == s.v6.tables
  {
    NoUnnamedService(s.v4, cfg);
    NoUnnamedService(s.v6, cfg);
    hide Clean;
    var s1 := AfterRequest(o, s, cfg, side, false).0;
    CloseOfClosedSide(o, s1, side, cfg.serviceOf(side), cfg.ownOf(side));
  }

  // ---- The program ----

  class Conn {
    const oracle: Oracle
    var calls: nat

    constructor (oracle: Oracle)
      ensures this.oracle == oracle && calls == 0
    {
      this.oracle := oracle;
      calls := 0;
    }

    method Call() returns (r: Reply)
      modifies this
      ensures calls == old(calls) + 1 && r == oracle(old(calls))
    {
      r := oracle(calls);
      calls := calls + 1;
    }
  }

  /** The shared map of one family, with what VPP and the metadata hold of that family. */
  class VrfMap {
    const vpp: Conn
    var entries: map<string, Info>
    var md: map<Side, nat>
    var tables: set<nat>
    var bound: map<nat, nat>

    ghost function F(): Family
      reads this
    {
      Family(entries, md, tables, bound)
    }

    constructor (vpp: Conn)
      ensures this.vpp == vpp && F() == EMPTY
    {
      this.vpp := vpp;
      entries, md, tables, bound := map[], map[], {}, map[];
    }

    method Create(side: Side, service: string) returns (ok: bool)
      modifies this, vpp
      ensures (F(), vpp.calls, ok) == AfterCreate(vpp.oracle, old(vpp.calls), old(F()), side, service)
    {
      if side in md {
        return true;
      }
      if service !in entries {
        var r := vpp.Call();
        if !r.ok {
          return false;
        }
        var id := Allocate(tables, r.hint);
        tables := tables + {id};
        entries := entries[service := Info(id, {})];
      }
      md := md[side := entries[service].id];
      ok := true;
    }

    method Attach(side: Side, service: string, swIfIndex: nat) returns (ok: bool)
      requires service in entries
      modifies this, vpp
      ensures (F(), vpp.calls, ok) == AfterAttach(vpp.oracle, old(vpp.calls), old(F()), side, service, swIfIndex)
    {
      ok := true;
      if swIfIndex !in entries[service].attached {
        var r := vpp.Call();
        if !r.ok {
          return false;
        }
        bound := bound[swIfIndex := if side in md then md[side] else 0];
        entries := entries[service := entries[service].(attached := entries[service].attached + {swIfIndex})];
      }
    }

    method Del(side: Side, service: string, own: nat)
      modifies this, vpp
      ensures (F(), vpp.calls) == AfterDel(vpp.oracle, old(vpp.calls), old(F()), side, service, own)
    {
      if side in md && service in entries {
        var left := entries[service].attached - {own};
        if |left| == 1 {
          entries := entries - {service};
          var r := vpp.Call();
          if r.ok { tables := tables - {md[side]}; }
        } else {
          entries := entries[service := entries[service].(attached := left)];
        }
      }
    }
  }

  class Server {
    const vpp: Conn
    const ipv4: VrfMap
    const ipv6: VrfMap

    ghost predicate Valid() {
      ipv4 != ipv6 && ipv4.vpp == ipv6.vpp == vpp
    }

    ghost function St(): State
      reads vpp, ipv4, ipv6
    {
      State(ipv4.F(), ipv6.F(), vpp.calls)
    }

    constructor (vpp: Conn)
      ensures Valid() && this.vpp == vpp && fresh(ipv4) && fresh(ipv6)
      ensures ipv4.F() == ipv6.F() == EMPTY
    {
      this.vpp := vpp;
      ipv4 := new VrfMap(vpp);
      ipv6 := new VrfMap(vpp);
    }

    method Request(ghost cfg: Config, side: Side, service: string, own: nat, loop: nat, nextOk: bool) returns (ok: bool)
      requires Valid()
      requires service == cfg.serviceOf(side) && own == cfg.ownOf(side) && loop == cfg.loopOf(service)
      requires side in ipv4.md ==> service in ipv4.entries
      requires side in ipv6.md ==> service in ipv6.entries
      modifies vpp, ipv4, ipv6
      ensures (St(), ok) == AfterRequest(vpp.oracle, old(St()), cfg, side, nextOk)
    {
      ghost var s := St();
      var isNew := side !in ipv4.md && side !in ipv6.md;
      ok := CreateBoth(side, service);
      if !ok {
        return;
      }
      if !nextOk {
        CloseTables(side, "", own);
        return false;
      }
      if isNew {
        assert service in ipv4.F().entries && service in ipv6.F().entries;
        hide AfterCreateBoth, AfterAttachBoth, AfterClose;
        ok := AttachBoth(side, service, loop);
        if ok {
          ok := AttachBoth(side, service, own);
        }
        if !ok {
          CloseTables(side, service, own);
        }
      }
    }

    /** `Close`, whatever the rest of the chain does in between. */
    method CloseTables(side: Side, service: string, own: nat)
      requires Valid()
      modifies vpp, ipv4, ipv6
      ensures St() == AfterClose(vpp.oracle, old(St()), side, service, own)
    {
      hide AfterDel;
      ipv6.Del(side, service, own);
      ipv4.Del(side, service, own);
      ipv6.md := ipv6.md - {side};
      ipv4.md := ipv4.md - {side};
    }

    /** The first loop of `Request`, over the two families. */
    method CreateBoth(side: Side, service: string) returns (ok: bool)
      requires Valid()
      modifies vpp, ipv4, ipv6
      ensures (St(), ok) == AfterCreateBoth(vpp.oracle, old(St()), side, service)
    {
      hide AfterCreate;
      ok := ipv4.Create(side, service);
      if ok {
        ok := ipv6.Create(side, service);
      }
    }

    method AttachBoth(side: Side, service: string, swIfIndex: nat) returns (ok: bool)
      requires Valid() && service in ipv4.entries && service in ipv6.entries
      modifies vpp, ipv4, ipv6
      ensures (St(), ok) == AfterAttachBoth(vpp.oracle, old(St()), side, service, swIfIndex)
      ensures service in ipv4.entries && service in ipv6.entries
    {
      assert service in ipv4.F().entries && service in ipv6.F().entries;
      ok := ipv4.Attach(side, service, swIfIndex);
      assert service in ipv4.F().entries;
      if ok {
        ok := ipv6.Attach(side, service, swIfIndex);
        assert service in ipv6.F().entries;
      }
    }
  }
}
