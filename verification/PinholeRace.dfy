/** Any number of pinhole requests, of the client and of the server element, that share one mutex
    (pkg/networkservice/pinhole/server.go, pkg/networkservice/pinhole/client.go). Every access to an
    `ipPortMap` and to the mutex and every change of VPP is a step of its own, and so is each dump, whose calls only read;
    a schedule may interleave the steps in any way. */
module PinholeRace {
  import opened Collections
  import opened Wrappers
  import opened GoNet
  import opened IpTypes
  import opened Vpp
  import opened Acl
  import opened Pinhole

  datatype IPPort = IPPort(ip: string, port: Port)

  /** VPP's answers, and what addresses the strings stand for (empty where a string is none). */
  datatype Config = Config(o: Oracle, parse: string -> IP)

  /** An entry of the `ipPortMap` of the client or of the server element. */
  datatype Entry = Entry(isClient: bool, key: IPPort)

  /** Where a request is; inside `create` with the values it has read so far. */
  datatype Pc =
    | Checking
    | Waiting
    | DoubleChecking
    | Looking
    | Dumping(swIfIndex: nat)
    | AddingIngress(swIfIndex: nat, ingressACLs: seq<Detail>, egressACLs: seq<Detail>)
    | AddingEgress(swIfIndex: nat, ingress: seq<nat>, egressACLs: seq<Detail>, before: nat)
    | Writing(swIfIndex: nat, ingress: seq<nat>, egress: seq<nat>, before: nat)
    | Created(ok: bool)
    | Unlocking(ok: bool)
    | Failed

  /** A request with the keys it has still to see to. */
  datatype Thread = Thread(isClient: bool, todo: seq<IPPort>, pc: Pc)

  /** `settled` records VPP's state after the last finished `create`; no step reads it. */
  datatype Machine = Machine(v: AclState, mutex: Option<nat>, served: set<Entry>, threads: seq<Thread>, settled: AclState)

  predicate Critical(pc: Pc) {
    pc != Checking && pc != Waiting && pc != Failed
  }

  predicate Creating(pc: Pc) {
    pc == Looking || pc.Dumping? || pc.AddingIngress? || pc.AddingEgress? || pc.Writing?
  }

  // ---- Steps ----

  /** The next dump or change of `create`. */
  function CreateStep(c: Config, v: AclState, key: IPPort, pc: Pc): (AclState, Pc)
    requires Creating(pc)
  {
    var ip, tag := c.parse(key.ip), TagOf(key.port);
    match pc
    case Looking =>
      if ip == [] || key.port == 0 then (v, Created(true))
      else
        var (v', found) := AfterLookup(c.o, v, ip);
        (v', if found.None? then Created(false) else Dumping(found.value))
    case Dumping(i) =>
      var (v', dump) := AfterDump(c.o, v, i);
      (v', if dump.None? then Created(false) else AddingIngress(i, dump.value.0, dump.value.1))
    case AddingIngress(i, ingressACLs, egressACLs) =>
      var (v', ingress) := AfterExtend(c.o, v, ip, key.port, tag, false, ingressACLs);
      (v', if ingress.None? then Created(false)
           else AddingEgress(i, ingress.value, egressACLs, |ingressACLs| + |egressACLs|))
    case AddingEgress(i, ingress, egressACLs, before) =>
      var (v', egress) := AfterExtend(c.o, v, ip, key.port, tag, true, egressACLs);
      (v', if egress.None? then Created(false) else Writing(i, ingress, egress.value, before))
    case Writing(i, ingress, egress, before) =>
      var (v', ok) := AfterWrite(c.o, v, i, ingress, egress, before);
      (v', Created(ok))
  }

  function Moved(s: Machine, i: nat, t: Thread): Machine
    requires i < |s.threads|
  {
    s.(threads := s.threads[i := t])
  }

  predicate Finished(t: Thread) {
    t.todo == [] || t.pc == Failed
  }

  /** One step of thread `i`; a finished thread, and one that waits while the mutex is taken, stays where it is. */
  function Step(c: Config, s: Machine, i: nat): Machine
    requires i < |s.threads|
  {
    var t := s.threads[i];
    if t.todo == [] then s
    else
      match t.pc
      case Checking =>
        Moved(s, i, if Entry(t.isClient, t.todo[0]) in s.served then t.(todo := t.todo[1..]) else t.(pc := Waiting))
      case Waiting =>
        if s.mutex == None then Moved(s, i, t.(pc := DoubleChecking)).(mutex := Some(i)) else s
      case DoubleChecking =>
        Moved(s, i, t.(pc := if Entry(t.isClient, t.todo[0]) in s.served then Unlocking(true) else Looking))
      case Created(ok) =>
        Moved(s, i, t.(pc := Unlocking(ok)))
          .(served := if ok then s.served + {Entry(t.isClient, t.todo[0])} else s.served, settled := s.v)
      case Unlocking(ok) =>
        Moved(s, i, if ok then t.(todo := t.todo[1..], pc := Checking) else t.(pc := Failed)).(mutex := None)
      case Failed => s
      case _ =>
        var (v', pc') := CreateStep(c, s.v, t.todo[0], t.pc);
        Moved(s, i, t.(pc := pc')).(v := v')
  }

  predicate Starts(v: AclState, threads: seq<Thread>, s: Machine) {
    && s == Machine(v, None, {}, threads, v)
    && forall i :: 0 <= i < |threads| ==> threads[i].pc == Checking
  }

  function Run(c: Config, s: Machine, schedule: seq<nat>): (s': Machine)
    requires forall k :: 0 <= k < |schedule| ==> schedule[k] < |s.threads|
    ensures |s'.threads| == |s.threads|
  {
    if schedule == [] then s
    else Step(c, Run(c, s, schedule[..|schedule| - 1]), schedule[|schedule| - 1])
  }

  // ---- The critical section is atomic ----

  /** What the rest of `create` comes to. */
  function Finish(c: Config, v: AclState, key: IPPort, pc: Pc): (AclState, bool)
    requires Creating(pc) || pc.Created?
  {
    var ip, tag := c.parse(key.ip), TagOf(key.port);
    match pc
    case Looking => Whole(c, v, key)
    case Dumping(i) =>
      var (v', dump) := AfterDump(c.o, v, i);
      if dump.None? then (v', false)
      else AfterInsert(c.o, v', ip, key.port, tag, i, dump.value.0, dump.value.1)
    case AddingIngress(i, ingressACLs, egressACLs) =>
      AfterInsert(c.o, v, ip, key.port, tag, i, ingressACLs, egressACLs)
    case AddingEgress(i, ingress, egressACLs, before) =>
      var (v', egress) := AfterExtend(c.o, v, ip, key.port, tag, true, egressACLs);
      if egress.None? then (v', false) else AfterWrite(c.o, v', i, ingress, egress.value, before)
    case Writing(i, ingress, egress, before) => AfterWrite(c.o, v, i, ingress, egress, before)
    case Created(ok) => (v, ok)
  }

  /** `create` in one go. */
  function Whole(c: Config, v: AclState, key: IPPort): (AclState, bool) {
    AfterCreate(c.o, v, c.parse(key.ip), key.port, TagOf(key.port))
  }

  /** A step of `create` leaves the rest of it what it was. */
  lemma CreateStepKeepsFinish(c: Config, v: AclState, key: IPPort, pc: Pc)
    requires Creating(pc)
    ensures var (v', pc') := CreateStep(c, v, key, pc);
            && (Creating(pc') || pc'.Created?)
            && Finish(c, v', key, pc') == Finish(c, v, key, pc)
  {
    hide AfterLookup, AfterDump, AfterExtend, AfterWrite, TagOf;
  }

  /** Until its last call `create` changes no list. */
  lemma CreateStepTouchesNothing(c: Config, v0: AclState, v: AclState, key: IPPort, pc: Pc)
    requires Creating(pc) && Untouched(v0, v)
    ensures var (v', pc') := CreateStep(c, v, key, pc);
            Creating(pc') ==> Untouched(v0, v')
  {
    hide AfterLookup, AfterDump, AfterExtend, AfterWrite, TagOf;
    match pc
    case Looking => LookupResult(c.o, v, c.parse(key.ip));
    case Dumping(i) => DumpReads(c.o, v, i);
    case AddingIngress(_, ingressACLs, _) => ExtendTouchesNothing(c, v0, v, key, false, ingressACLs);
    case AddingEgress(_, _, egressACLs, _) => ExtendTouchesNothing(c, v0, v, key, true, egressACLs);
    case Writing(_, _, _, _) =>
  }

  lemma ExtendTouchesNothing(c: Config, v0: AclState, v: AclState, key: IPPort, egress: bool, details: seq<Detail>)
    requires Untouched(v0, v)
    ensures Untouched(v0, AfterExtend(c.o, v, c.parse(key.ip), key.port, TagOf(key.port), egress, details).0)
  {
    hide TagOf, PinholeAcl, FirstFree, Indices, HasTag;
  }

  /** The mutex is held by the one thread in the critical section. */
  ghost predicate Exclusive(s: Machine) {
    && (s.mutex.Some? ==> s.mutex.value < |s.threads|)
    && forall i :: 0 <= i < |s.threads| ==> InTurn(s.threads[i], s.mutex == Some(i))
  }

  predicate InTurn(t: Thread, holds: bool) {
    (Critical(t.pc) <==> holds) && (Critical(t.pc) ==> t.todo != [])
  }

  /** VPP's state between a settled state and the end of a `create` that started there. */
  ghost predicate Between(c: Config, settled: AclState, v: AclState, key: IPPort, pc: Pc) {
    if Creating(pc) then Finish(c, v, key, pc) == Whole(c, settled, key) && Untouched(settled, v)
    else if pc.Created? then (v, pc.ok) == Whole(c, settled, key)
    else v == settled
  }

  ghost predicate Linear(c: Config, s: Machine)
    requires Exclusive(s)
  {
    match s.mutex
    case None => s.v == s.settled
    case Some(i) =>
      assert InTurn(s.threads[i], true);
      Between(c, s.settled, s.v, s.threads[i].todo[0], s.threads[i].pc)
  }

  lemma StepExclusive(c: Config, s: Machine, i: nat)
    requires i < |s.threads| && Exclusive(s)
    ensures Exclusive(Step(c, s, i))
  {
    var s' := Step(c, s, i);
    assert InTurn(s.threads[i], s.mutex == Some(i));
    hide CreateStep, Between;
    forall j | 0 <= j < |s'.threads|
      ensures InTurn(s'.threads[j], s'.mutex == Some(j))
    {
      assert InTurn(s.threads[j], s.mutex == Some(j));
      if j == i && Creating(s.threads[i].pc) { CreateStepKeepsFinish(c, s.v, s.threads[i].todo[0], s.threads[i].pc); }
    }
  }

  /** One step of the machine is nothing to the settled state and the served keys, or is one whole `create`. */
  ghost predicate Atomic(c: Config, s: Machine, s': Machine, i: nat)
    requires i < |s.threads|
  {
    if s.threads[i].todo != [] && s.threads[i].pc.Created? then
      var key := s.threads[i].todo[0];
      && (s'.settled, s.threads[i].pc.ok) == Whole(c, s.settled, key)
      && s'.served == if s.threads[i].pc.ok then s.served + {Entry(s.threads[i].isClient, key)} else s.served
    else
      s'.settled == s.settled && s'.served == s.served
  }

  lemma StepLinear(c: Config, s: Machine, i: nat)
    requires i < |s.threads| && Exclusive(s) && Linear(c, s)
    ensures Exclusive(Step(c, s, i)) && Linear(c, Step(c, s, i))
    ensures Atomic(c, s, Step(c, s, i), i)
  {
    StepExclusive(c, s, i);
    var t := s.threads[i];
    assert InTurn(t, s.mutex == Some(i));
    assert t.pc == Looking && s.v == s.settled ==> Finish(c, s.v, t.todo[0], t.pc) == Whole(c, s.settled, t.todo[0]);
    if Creating(t.pc) {
      CreateStepKeepsFinish(c, s.v, t.todo[0], t.pc);
      CreateStepTouchesNothing(c, s.settled, s.v, t.todo[0], t.pc);
    }
    hide Whole, CreateStep;
  }

  // ---- What the lists are made of ----

  function PinFor(c: Config, key: IPPort, egress: bool): AclEntry {
    PinholeAcl(c.parse(key.ip), key.port, TagOf(key.port), egress)
  }

  ghost predicate IsPin(c: Config, keys: set<IPPort>, entry: AclEntry, egress: bool) {
    exists key :: key in keys && entry == PinFor(c, key, egress)
  }

  /** The list is the original one under pinholes for the keys, each with a tag that no list under it has; an empty list
      has stayed empty. */
  ghost predicate Layered(c: Config, keys: set<IPPort>, acls: map<nat, AclEntry>, egress: bool, orig: seq<nat>, now: seq<nat>)
    requires Known(acls, now)
  {
    now == orig ||
    (&& orig != [] && |now| > |orig|
     && !Tagged(acls, now[1..], acls[now[0]].tag) && IsPin(c, keys, acls[now[0]], egress)
     && Layered(c, keys, acls, egress, orig, now[1..]))
  }

  lemma {:induction false} LayeredGrown(
    c: Config, keys: set<IPPort>, acls: map<nat, AclEntry>, acls': map<nat, AclEntry>, egress: bool, orig: seq<nat>, now: seq<nat>)
    requires Known(acls, now) && Grown(acls, acls') && Layered(c, keys, acls, egress, orig, now)
    ensures Known(acls', now) && Layered(c, keys, acls', egress, orig, now)
  {
    hide IsPin, Tagged;
    if now != orig {
      GrownKnows(acls, acls', now[1..]);
      assert acls'[now[0]] == acls[now[0]];
      LayeredGrown(c, keys, acls, acls', egress, orig, now[1..]);
    }
  }

  /** A pinhole in front is one more layer. */
  lemma LayeredExtended(
    c: Config, keys: set<IPPort>, key: IPPort, acls: map<nat, AclEntry>, acls': map<nat, AclEntry>, egress: bool,
    orig: seq<nat>, now: seq<nat>, now': seq<nat>)
    requires Known(acls, now) && Layered(c, keys, acls, egress, orig, now) && Grown(acls, acls') && key in keys
    requires Extended(acls, acls', Ask(c.parse(key.ip), key.port, TagOf(key.port), egress), now, now') && Known(acls', now')
    ensures Layered(c, keys, acls', egress, orig, now')
    ensures now' == [] || Tagged(acls', now', TagOf(key.port))
  {
    GrownKnows(acls, acls', now);
    LayeredGrown(c, keys, acls, acls', egress, orig, now);
    LayeredSuffix(c, keys, acls, egress, orig, now);
    if now' != now {
      assert acls'[now'[0]] == PinFor(c, key, egress);
      assert IsPin(c, keys, acls'[now'[0]], egress);
    }
  }

  lemma {:induction false} LayeredSuffix(
    c: Config, keys: set<IPPort>, acls: map<nat, AclEntry>, egress: bool, orig: seq<nat>, now: seq<nat>)
    requires Known(acls, now) && Layered(c, keys, acls, egress, orig, now)
    ensures |now| >= |orig| && now[|now| - |orig|..] == orig && (orig == [] ==> now == [])
    ensures forall i, j :: 0 <= i < |now| - |orig| && i < j < |now| ==> acls[now[i]].tag != acls[now[j]].tag
  {
    hide IsPin;
    if now != orig {
      LayeredSuffix(c, keys, acls, egress, orig, now[1..]);
      forall i, j | 0 <= i < |now| - |orig| && i < j < |now|
        ensures acls[now[i]].tag != acls[now[j]].tag
      {
        assert now[j] == now[1..][j - 1];
        if i > 0 { assert now[i] == now[1..][i - 1]; }
      }
    }
  }

  function Tags(keys: set<IPPort>): set<string> {
    set key | key in keys :: TagOf(key.port)
  }

  /** There are no more layers than tags. */
  lemma {:induction false} LayeredBound(
    c: Config, keys: set<IPPort>, acls: map<nat, AclEntry>, egress: bool, orig: seq<nat>, now: seq<nat>, tags: set<string>)
    requires Known(acls, now) && Layered(c, keys, acls, egress, orig, now)
    requires forall i :: 0 <= i < |now| - |orig| ==> acls[now[i]].tag in tags
    ensures |now| <= |orig| + |tags|
  {
    hide IsPin;
    if now != orig {
      var rest := tags - {acls[now[0]].tag};
      assert |rest| == |tags| - 1;
      forall i | 0 <= i < |now[1..]| - |orig|
        ensures acls[now[1..][i]].tag in rest
      {
        assert now[1..][i] == now[i + 1];
      }
      LayeredBound(c, keys, acls, egress, orig, now[1..], rest);
    }
  }

  lemma {:induction false} LayeredTags(
    c: Config, keys: set<IPPort>, acls: map<nat, AclEntry>, egress: bool, orig: seq<nat>, now: seq<nat>, i: nat)
    requires Known(acls, now) && Layered(c, keys, acls, egress, orig, now) && i < |now| - |orig|
    ensures IsPin(c, keys, acls[now[i]], egress) && acls[now[i]].tag in Tags(keys)
  {
    hide TagOf, PinholeRule, Tagged;
    if i > 0 { LayeredTags(c, keys, acls, egress, orig, now[1..], i - 1); }
  }

  /** There is room for one more layer with a new tag. */
  lemma LayeredRoom(
    c: Config, keys: set<IPPort>, acls: map<nat, AclEntry>, egress: bool, orig: seq<nat>, now: seq<nat>, tag: string)
    requires Known(acls, now) && Layered(c, keys, acls, egress, orig, now) && tag in Tags(keys)
    ensures |now| + Gain(acls, now, tag) <= |orig| + |Tags(keys)|
  {
    hide Layered, Tags;
    var tags := if Gain(acls, now, tag) == 1 then Tags(keys) - {tag} else Tags(keys);
    forall i | 0 <= i < |now| - |orig|
      ensures acls[now[i]].tag in tags
    {
      LayeredTags(c, keys, acls, egress, orig, now, i);
    }
    LayeredBound(c, keys, acls, egress, orig, now, tags);
  }

  /** Some list in front of the original ones is the pinhole of the key. */
  ghost predicate InFront(c: Config, acls: map<nat, AclEntry>, egress: bool, orig: seq<nat>, now: seq<nat>, key: IPPort)
    requires Known(acls, now)
  {
    exists i :: 0 <= i < |now| - |orig| && acls[now[i]] == PinFor(c, key, egress)
  }

  /** A packet of the tunnel of a key whose pinhole is in front. */
  ghost predicate Tunnelled(
    c: Config, keys: set<IPPort>, acls: map<nat, AclEntry>, egress: bool, orig: seq<nat>, now: seq<nat>, p: Packet)
    requires Known(acls, now)
  {
    exists key :: key in keys && InFront(c, acls, egress, orig, now, key) && IsTunnelPacket(c.parse(key.ip), key.port, egress, p)
  }

  /** What layers let through: what the original list did, and the packets of the tunnels. */
  lemma {:induction false} LayeredMeaning(
    c: Config, keys: set<IPPort>, acls: map<nat, AclEntry>, egress: bool, orig: seq<nat>, now: seq<nat>, p: Packet)
    requires Known(acls, now) && Known(acls, orig) && Layered(c, keys, acls, egress, orig, now)
    ensures Permits(RulesOf(acls, now), p) <==>
            Permits(RulesOf(acls, orig), p) || Tunnelled(c, keys, acls, egress, orig, now, p)
  {
    if now == orig {
      return;
    }
    var rest := now[1..];
    LayeredMeaning(c, keys, acls, egress, orig, rest, p);
    var key :| key in keys && acls[now[0]] == PinFor(c, key, egress);
    var r := PinholeRule(c.parse(key.ip), key.port, egress);
    hide Layered, Tunnelled, Permits, PinholeRule, IsTunnelPacket, Tagged, TagOf, Matches, PinFor, RulesOf, IsPin;
    RulesUnder(c, acls, egress, now, key);
    PinInFront(r, c, key, egress, RulesOf(acls, rest), p);
    TunnelledMore(c, keys, acls, egress, orig, now, key, p);
  }

  lemma RulesUnder(c: Config, acls: map<nat, AclEntry>, egress: bool, now: seq<nat>, key: IPPort)
    requires Known(acls, now) && now != [] && acls[now[0]] == PinFor(c, key, egress)
    ensures RulesOf(acls, now) == [[PinholeRule(c.parse(key.ip), key.port, egress)]] + RulesOf(acls, now[1..])
    ensures |RulesOf(acls, now[1..])| == |now| - 1
  {
    hide PinholeRule, TagOf;
  }

  lemma PinInFront(r: Rule, c: Config, key: IPPort, egress: bool, lists: seq<seq<Rule>>, p: Packet)
    requires r == PinholeRule(c.parse(key.ip), key.port, egress) && lists != []
    ensures Permits([[r]] + lists, p) <==> IsTunnelPacket(c.parse(key.ip), key.port, egress, p) || Permits(lists, p)
  {
    hide Permits, IsTunnelPacket, Matches, ToVppPrefix;
    PermitInFront(r, lists, p);
    PinholeRuleMeaning(c.parse(key.ip), key.port, egress, p);
  }

  /** Two pinholes that are one access list are for the same packets. */
  lemma SamePin(c: Config, a: IPPort, b: IPPort, egress: bool, p: Packet)
    requires PinFor(c, a, egress) == PinFor(c, b, egress)
    ensures IsTunnelPacket(c.parse(a.ip), a.port, egress, p) <==> IsTunnelPacket(c.parse(b.ip), b.port, egress, p)
  {
    PinholeRuleMeaning(c.parse(a.ip), a.port, egress, p);
    PinholeRuleMeaning(c.parse(b.ip), b.port, egress, p);
    assert PinFor(c, a, egress).rules[0] == PinFor(c, b, egress).rules[0];
    hide IsTunnelPacket, Matches, PinholeRule, TagOf;
  }

  lemma TunnelledMore(
    c: Config, keys: set<IPPort>, acls: map<nat, AclEntry>, egress: bool, orig: seq<nat>, now: seq<nat>, key: IPPort, p: Packet)
    requires |now| > |orig| && Known(acls, now) && key in keys && acls[now[0]] == PinFor(c, key, egress)
    ensures Tunnelled(c, keys, acls, egress, orig, now, p) <==>
            IsTunnelPacket(c.parse(key.ip), key.port, egress, p) || Tunnelled(c, keys, acls, egress, orig, now[1..], p)
  {
    hide PinFor, IsTunnelPacket;
    var rest := now[1..];
    assert InFront(c, acls, egress, orig, now, key);
    forall k
      ensures InFront(c, acls, egress, orig, now, k) <==>
              PinFor(c, k, egress) == PinFor(c, key, egress) || InFront(c, acls, egress, orig, rest, k)
      ensures PinFor(c, k, egress) == PinFor(c, key, egress) ==>
              (IsTunnelPacket(c.parse(k.ip), k.port, egress, p) <==> IsTunnelPacket(c.parse(key.ip), key.port, egress, p))
    {
      InFrontMore(c, acls, egress, orig, now, key, k);
      if PinFor(c, k, egress) == PinFor(c, key, egress) { SamePin(c, k, key, egress, p); }
    }
    hide InFront;
  }

  lemma InFrontMore(
    c: Config, acls: map<nat, AclEntry>, egress: bool, orig: seq<nat>, now: seq<nat>, key: IPPort, k: IPPort)
    requires |now| > |orig| && Known(acls, now) && acls[now[0]] == PinFor(c, key, egress)
    ensures InFront(c, acls, egress, orig, now, k) <==>
            PinFor(c, k, egress) == PinFor(c, key, egress) || InFront(c, acls, egress, orig, now[1..], k)
  {
    hide PinFor;
    var rest := now[1..];
    assert forall i :: 0 <= i < |rest| ==> rest[i] == now[i + 1];
    if InFront(c, acls, egress, orig, rest, k) {
      var i :| 0 <= i < |rest| - |orig| && acls[rest[i]] == PinFor(c, k, egress);
      assert acls[now[i + 1]] == PinFor(c, k, egress);
    }
    if InFront(c, acls, egress, orig, now, k) && PinFor(c, k, egress) != PinFor(c, key, egress) {
      var i :| 0 <= i < |now| - |orig| && acls[now[i]] == PinFor(c, k, egress);
      assert rest[i - 1] == now[i];
    }
  }

  // ---- What every interleaving keeps ----

  /** The keys whose tunnels' addresses are on the interface. */
  function KeysAt(c: Config, keys: set<IPPort>, interfaces: seq<Interface>, i: nat): set<IPPort> {
    set k | k in keys && FindInterface(interfaces, c.parse(k.ip)) == Some(i)
  }

  ghost predicate LayeredAt(c: Config, keys: set<IPPort>, v0: AclState, v: AclState, i: nat, egress: bool)
    requires Sound(v0) && Sound(v)
  {
    DirectionKnown(v0, i);
    DirectionKnown(v, i);
    Layered(c, KeysAt(c, keys, v0.interfaces, i), v.acls, egress, Direction(ListOf(v0, i), egress), Direction(ListOf(v, i), egress))
  }

  ghost predicate Shaped(c: Config, keys: set<IPPort>, v0: AclState, v: AclState)
    requires Sound(v0)
  {
    && Sound(v) && v.interfaces == v0.interfaces && Grown(v0.acls, v.acls)
    && forall i: nat, egress :: LayeredAt(c, keys, v0, v, i, egress)
  }

  /** Every interface's lists leave room for each tag of its tunnels in each direction. */
  ghost predicate Room(c: Config, keys: set<IPPort>, v0: AclState) {
    forall i :: |ListOf(v0, i).acls| + 2 * |Tags(KeysAt(c, keys, v0.interfaces, i))| < 256
  }

  /** Both directions of the tunnel's interface are empty or have the tag. */
  ghost predicate Served(c: Config, v: AclState, key: IPPort)
    requires Sound(v)
  {
    var ip := c.parse(key.ip);
    ip != [] && key.port != 0 ==>
      FindInterface(v.interfaces, ip).Some? && forall egress :: !Opens(v, FindInterface(v.interfaces, ip).value, egress, TagOf(key.port))
  }

  /** How a whole `create` leaves VPP. */
  ghost predicate Effect(c: Config, v: AclState, v': AclState, ok: bool, key: IPPort)
    requires Sound(v)
  {
    var ip := c.parse(key.ip);
    if ok && ip != [] && key.port != 0 then
      && FindInterface(v.interfaces, ip).Some?
      && Pinned(v, v', ip, key.port, TagOf(key.port), FindInterface(v.interfaces, ip).value)
    else Untouched(v, v')
  }

  lemma WholeEffect(c: Config, v: AclState, key: IPPort)
    requires Sound(v) && forall i :: FindInterface(v.interfaces, c.parse(key.ip)) == Some(i) ==> Fits(v, i, TagOf(key.port))
    ensures var (v', ok) := Whole(c, v, key); Effect(c, v, v', ok, key)
  {
    var ip := c.parse(key.ip);
    hide Pinned, Sound, Fits, TagOf;
    if ip != [] && key.port != 0 {
      if FindInterface(v.interfaces, ip).Some? {
        CreateResult(c.o, v, ip, key.port, TagOf(key.port), FindInterface(v.interfaces, ip).value);
      } else {
        LookupResult(c.o, v, ip);
        OnlyCallsUntouched(v, AfterLookup(c.o, v, ip).0);
      }
    }
    hide AfterInsert, AfterDump, FindInterface, AfterLookup;
  }

  lemma ShapedFits(c: Config, keys: set<IPPort>, v0: AclState, v: AclState, key: IPPort, i: nat)
    requires Sound(v0) && Room(c, keys, v0) && Shaped(c, keys, v0, v) && key in keys
    requires FindInterface(v.interfaces, c.parse(key.ip)) == Some(i)
    ensures Fits(v, i, TagOf(key.port))
  {
    var tag, at := TagOf(key.port), KeysAt(c, keys, v0.interfaces, i);
    hide TagOf, FindInterface;
    assert tag in Tags(at);
    hide Tags;
    DirectionKnown(v0, i);
    DirectionKnown(v, i);
    assert LayeredAt(c, keys, v0, v, i, false) && LayeredAt(c, keys, v0, v, i, true);
    hide Layered, Gain, ListOf, Sound, Known;
    LayeredRoom(c, at, v.acls, false, Direction(ListOf(v0, i), false), Direction(ListOf(v, i), false), tag);
    LayeredRoom(c, at, v.acls, true, Direction(ListOf(v0, i), true), Direction(ListOf(v, i), true), tag);
  }

  lemma UntouchedSound(v: AclState, v': AclState)
    requires Sound(v) && Untouched(v, v')
    ensures Sound(v') && forall i :: ListOf(v', i) == ListOf(v, i)
  {
    forall i | i in v'.lists
      ensures WellSplit(v'.lists[i]) && Known(v'.acls, v'.lists[i].acls)
    {
      GrownKnows(v.acls, v'.acls, v.lists[i].acls);
    }
  }

  lemma UntouchedShaped(c: Config, keys: set<IPPort>, v0: AclState, v: AclState, v': AclState)
    requires Sound(v0) && Shaped(c, keys, v0, v) && Untouched(v, v')
    ensures Shaped(c, keys, v0, v')
  {
    UntouchedSound(v, v');
    forall i: nat, egress
      ensures LayeredAt(c, keys, v0, v', i, egress)
    {
      assert LayeredAt(c, keys, v0, v, i, egress);
      DirectionKnown(v, i);
      LayeredGrown(c, KeysAt(c, keys, v0.interfaces, i), v.acls, v'.acls, egress,
                   Direction(ListOf(v0, i), egress), Direction(ListOf(v, i), egress));
    }
    hide Sound, LayeredAt, ListOf;
  }

  lemma UntouchedServed(c: Config, v: AclState, v': AclState, key: IPPort)
    requires Sound(v) && Untouched(v, v') && Served(c, v, key)
    ensures Sound(v') && Served(c, v', key)
  {
    UntouchedSound(v, v');
    forall i: nat, egress
      ensures Opens(v', i, egress, TagOf(key.port)) ==> Opens(v, i, egress, TagOf(key.port))
    {
      DirectionKnown(v, i);
      GrownKnows(v.acls, v'.acls, Direction(ListOf(v, i), egress));
    }
    hide Sound, Opens, FindInterface, TagOf;
  }

  lemma PinnedShapedAt(c: Config, keys: set<IPPort>, v0: AclState, v: AclState, v': AclState, key: IPPort, at: nat, i: nat, egress: bool)
    requires Sound(v0) && Sound(v) && Sound(v') && LayeredAt(c, keys, v0, v, i, egress) && key in keys
    requires FindInterface(v0.interfaces, c.parse(key.ip)) == Some(at)
    requires Pinned(v, v', c.parse(key.ip), key.port, TagOf(key.port), at)
    ensures LayeredAt(c, keys, v0, v', i, egress)
    ensures i == at ==> !Opens(v', i, egress, TagOf(key.port))
    ensures forall tag :: Opens(v', i, egress, tag) ==> Opens(v, i, egress, tag)
  {
    hide Pinned, Sound, LayeredAt, TagOf, FindInterface, Opens;
    if i == at {
      PinnedShapedHere(c, keys, v0, v, v', key, i, egress);
    } else {
      PinnedShapedThere(c, keys, v0, v, v', key, at, i, egress);
    }
  }

  lemma PinnedShapedHere(c: Config, keys: set<IPPort>, v0: AclState, v: AclState, v': AclState, key: IPPort, i: nat, egress: bool)
    requires Sound(v0) && Sound(v) && Sound(v') && LayeredAt(c, keys, v0, v, i, egress) && key in keys
    requires FindInterface(v0.interfaces, c.parse(key.ip)) == Some(i)
    requires Pinned(v, v', c.parse(key.ip), key.port, TagOf(key.port), i)
    ensures LayeredAt(c, keys, v0, v', i, egress) && !Opens(v', i, egress, TagOf(key.port))
    ensures forall tag :: Opens(v', i, egress, tag) ==> Opens(v, i, egress, tag)
  {
    DirectionKnown(v0, i);
    DirectionKnown(v, i);
    DirectionKnown(v', i);
    var orig, now, now' := Direction(ListOf(v0, i), egress), Direction(ListOf(v, i), egress), Direction(ListOf(v', i), egress);
    assert Extended(v.acls, v'.acls, Ask(c.parse(key.ip), key.port, TagOf(key.port), egress), now, now');
    assert Grown(v.acls, v'.acls);
    GrownKnows(v.acls, v'.acls, now);
    hide Pinned, Sound, Direction, ListOf, TagOf, Layered, WellSplit, FindInterface, Extended, Known, Grown;
    ExtendedKeepsTags(v.acls, v'.acls, Ask(c.parse(key.ip), key.port, TagOf(key.port), egress), now, now');
    LayeredExtended(c, KeysAt(c, keys, v0.interfaces, i), key, v.acls, v'.acls, egress, orig, now, now');
  }

  lemma PinnedShapedThere(
    c: Config, keys: set<IPPort>, v0: AclState, v: AclState, v': AclState, key: IPPort, at: nat, i: nat, egress: bool)
    requires Sound(v0) && Sound(v) && Sound(v') && LayeredAt(c, keys, v0, v, i, egress) && i != at
    requires Pinned(v, v', c.parse(key.ip), key.port, TagOf(key.port), at)
    ensures LayeredAt(c, keys, v0, v', i, egress)
    ensures forall tag :: Opens(v', i, egress, tag) ==> Opens(v, i, egress, tag)
  {
    DirectionKnown(v0, i);
    DirectionKnown(v, i);
    DirectionKnown(v', i);
    assert ListOf(v', i) == ListOf(v, i) && Grown(v.acls, v'.acls);
    var orig, now := Direction(ListOf(v0, i), egress), Direction(ListOf(v, i), egress);
    GrownKnows(v.acls, v'.acls, now);
    hide Pinned, Sound, Direction, ListOf, TagOf, Layered, WellSplit, Extended, Known, Grown;
    LayeredGrown(c, KeysAt(c, keys, v0.interfaces, i), v.acls, v'.acls, egress, orig, now);
  }

  lemma ExtendedKeepsTags(acls: map<nat, AclEntry>, acls': map<nat, AclEntry>, ask: Ask, before: seq<nat>, after: seq<nat>)
    requires Known(acls, before) && Extended(acls, acls', ask, before, after) && Grown(acls, acls') && Known(acls', after)
    ensures before == [] ==> after == []
    ensures forall tag :: Tagged(acls, before, tag) ==> Tagged(acls', after, tag)
  {
    GrownKnows(acls, acls', before);
    if after != before {
      forall tag | Tagged(acls', before, tag)
        ensures Tagged(acls', after, tag)
      {
        var i :| 0 <= i < |before| && acls'[before[i]].tag == tag;
        assert acls'[after[i + 1]].tag == tag;
      }
    }
  }

  /** A whole `create`, succeeding or failing anywhere, keeps the shape of all lists and every key that was served. */
  lemma WholeKeeps(c: Config, keys: set<IPPort>, v0: AclState, v: AclState, key: IPPort)
    requires Sound(v0) && Room(c, keys, v0) && Shaped(c, keys, v0, v) && key in keys
    ensures var (v', ok) := Whole(c, v, key);
            && Shaped(c, keys, v0, v')
            && (forall k :: Served(c, v, k) ==> Served(c, v', k))
            && (ok ==> Served(c, v', key))
  {
    hide Whole;
    var (v', ok) := Whole(c, v, key);
    forall i: nat | FindInterface(v.interfaces, c.parse(key.ip)) == Some(i)
      ensures Fits(v, i, TagOf(key.port))
    {
      ShapedFits(c, keys, v0, v, key, i);
    }
    WholeEffect(c, v, key);
    hide Fits, Room;
    EffectKeeps(c, keys, v0, v, v', ok, key);
  }

  lemma EffectKeeps(c: Config, keys: set<IPPort>, v0: AclState, v: AclState, v': AclState, ok: bool, key: IPPort)
    requires Sound(v0) && Shaped(c, keys, v0, v) && key in keys && Effect(c, v, v', ok, key)
    ensures Shaped(c, keys, v0, v')
    ensures forall k :: Served(c, v, k) ==> Served(c, v', k)
    ensures ok ==> Served(c, v', key)
  {
    var ip := c.parse(key.ip);
    hide FindInterface, TagOf, Pinned, Untouched, Sound, Opens, LayeredAt, Grown;
    if ok && ip != [] && key.port != 0 {
      PinnedKeeps(c, keys, v0, v, v', key, FindInterface(v.interfaces, ip).value);
    } else {
      UntouchedShaped(c, keys, v0, v, v');
      forall k | Served(c, v, k)
        ensures Served(c, v', k)
      {
        hide Served;
        UntouchedServed(c, v, v', k);
      }
    }
  }

  lemma PinnedKeeps(c: Config, keys: set<IPPort>, v0: AclState, v: AclState, v': AclState, key: IPPort, at: nat)
    requires Sound(v0) && Shaped(c, keys, v0, v) && key in keys
    requires FindInterface(v.interfaces, c.parse(key.ip)) == Some(at)
    requires Pinned(v, v', c.parse(key.ip), key.port, TagOf(key.port), at)
    ensures Shaped(c, keys, v0, v')
    ensures forall k :: Served(c, v, k) ==> Served(c, v', k)
    ensures Served(c, v', key)
  {
    var ip := c.parse(key.ip);
    hide FindInterface, TagOf, Sound;
    PinnedSound(v, v', ip, key.port, TagOf(key.port), at);
    GrownTwice(v0.acls, v.acls, v'.acls);
    hide Opens, LayeredAt, Grown;
    forall i: nat, egress
      ensures LayeredAt(c, keys, v0, v', i, egress)
    {
      hide Pinned;
      assert LayeredAt(c, keys, v0, v, i, egress);
      PinnedShapedAt(c, keys, v0, v, v', key, at, i, egress);
    }
    forall i: nat, egress, tag
      ensures Opens(v', i, egress, tag) ==> Opens(v, i, egress, tag) && !(i == at && tag == TagOf(key.port))
    {
      hide Pinned;
      assert LayeredAt(c, keys, v0, v, i, egress);
      PinnedShapedAt(c, keys, v0, v, v', key, at, i, egress);
    }
    assert v'.interfaces == v.interfaces;
    hide Pinned;
  }

  ghost predicate AllServed(c: Config, v: AclState, served: set<Entry>)
    requires Sound(v)
  {
    forall e :: e in served ==> Served(c, v, e.key)
  }

  predicate Asked(keys: set<IPPort>, t: Thread) {
    forall k :: k in t.todo ==> k in keys
  }

  ghost predicate Settled(c: Config, keys: set<IPPort>, v0: AclState, s: Machine)
    requires Sound(v0)
  {
    && Shaped(c, keys, v0, s.settled) && AllServed(c, s.settled, s.served)
    && forall i :: 0 <= i < |s.threads| ==> Asked(keys, s.threads[i])
  }

  lemma StepAsks(c: Config, keys: set<IPPort>, s: Machine, i: nat)
    requires i < |s.threads| && forall j :: 0 <= j < |s.threads| ==> Asked(keys, s.threads[j])
    ensures forall j :: 0 <= j < |s.threads| ==> Asked(keys, Step(c, s, i).threads[j])
  {
    hide CreateStep;
    var t := s.threads[i];
    assert Asked(keys, t);
    if t.todo != [] { assert Asked(keys, t.(todo := t.todo[1..])); }
  }

  lemma StepSettled(c: Config, keys: set<IPPort>, v0: AclState, s: Machine, i: nat)
    requires Sound(v0) && Room(c, keys, v0) && i < |s.threads|
    requires Settled(c, keys, v0, s) && Atomic(c, s, Step(c, s, i), i)
    ensures Settled(c, keys, v0, Step(c, s, i))
  {
    StepAsks(c, keys, s, i);
    var t := s.threads[i];
    assert Asked(keys, t);
    hide Step, Whole, Shaped, Served, Room;
    if t.todo != [] && t.pc.Created? { WholeKeeps(c, keys, v0, s.settled, t.todo[0]); }
  }

  /** Wherever the schedule stops, VPP's lists have the shape and the keys in the maps are served. */
  lemma SettledNow(c: Config, keys: set<IPPort>, v0: AclState, s: Machine)
    requires Sound(v0) && Room(c, keys, v0) && Exclusive(s) && Linear(c, s) && Settled(c, keys, v0, s)
    ensures Shaped(c, keys, v0, s.v) && AllServed(c, s.v, s.served)
  {
    hide LayeredAt, Grown, Sound, Served, Room, Whole, Finish, TagOf, Untouched;
    if s.mutex.Some? {
      var t := s.threads[s.mutex.value];
      assert InTurn(t, true);
      assert Asked(keys, t);
      if Creating(t.pc) {
        UntouchedShaped(c, keys, v0, s.settled, s.v);
        forall e | e in s.served
          ensures Served(c, s.v, e.key)
        {
          UntouchedServed(c, s.settled, s.v, e.key);
        }
      } else if t.pc.Created? {
        WholeKeeps(c, keys, v0, s.settled, t.todo[0]);
      }
    }
  }

  lemma ShapedInitially(c: Config, keys: set<IPPort>, v: AclState)
    requires Sound(v)
    ensures Shaped(c, keys, v, v)
  {
    forall i: nat, egress
      ensures LayeredAt(c, keys, v, v, i, egress)
    {
      DirectionKnown(v, i);
    }
    hide LayeredAt, Sound;
  }

  /** Under every schedule the critical section is exclusive and atomic, and the lists are what whole `create`s made of
      them, one after the other. */
  lemma {:induction false} RunKeeps(
    c: Config, keys: set<IPPort>, v: AclState, threads: seq<Thread>, s: Machine, schedule: seq<nat>)
    requires Sound(v) && Room(c, keys, v) && Starts(v, threads, s)
    requires forall k :: 0 <= k < |schedule| ==> schedule[k] < |threads|
    requires forall i :: 0 <= i < |threads| ==> Asked(keys, threads[i])
    ensures var s' := Run(c, s, schedule);
            Exclusive(s') && Linear(c, s') && Settled(c, keys, v, s')
  {
    hide Room, Asked;
    if schedule == [] {
      forall i | 0 <= i < |threads|
        ensures InTurn(threads[i], false)
      {
      }
      ShapedInitially(c, keys, v);
    } else {
      var last := |schedule| - 1;
      RunKeeps(c, keys, v, threads, s, schedule[..last]);
      hide Exclusive, Linear, Settled, Starts, Step, Atomic;
      var s' := Run(c, s, schedule[..last]);
      StepLinear(c, s', schedule[last]);
      StepSettled(c, keys, v, s', schedule[last]);
    }
  }

  // ---- What it comes to ----

  /** The direction is its original list, whole and in order, under pinholes that have tags of their own; and there are few
      enough lists for the counts to split the written list exactly there. */
  ghost predicate OriginalBelow(v: AclState, v': AclState, i: nat, egress: bool)
    requires Sound(v) && Sound(v') && Grown(v.acls, v'.acls)
  {
    DirectionKnown(v, i);
    DirectionKnown(v', i);
    var orig, now := Direction(ListOf(v, i), egress), Direction(ListOf(v', i), egress);
    GrownKnows(v.acls, v'.acls, orig);
    && |ListOf(v', i).acls| < 256 && RulesOf(v'.acls, orig) == RulesOf(v.acls, orig)
    && |now| >= |orig| && now[|now| - |orig|..] == orig && (orig == [] ==> now == [])
    && forall k, l :: 0 <= k < |now| - |orig| && k < l < |now| ==> v'.acls[now[k]].tag != v'.acls[now[l]].tag
  }

  /** VPP's lists after any part of any run. */
  lemma RunShaped(c: Config, keys: set<IPPort>, v: AclState, threads: seq<Thread>, s: Machine, schedule: seq<nat>)
    requires Sound(v) && Room(c, keys, v) && Starts(v, threads, s)
    requires forall k :: 0 <= k < |schedule| ==> schedule[k] < |threads|
    requires forall j :: 0 <= j < |threads| ==> Asked(keys, threads[j])
    ensures Shaped(c, keys, v, Run(c, s, schedule).v) && AllServed(c, Run(c, s, schedule).v, Run(c, s, schedule).served)
  {
    hide Exclusive, Linear, Settled, Room, LayeredAt, Grown, AllServed, Sound, Run;
    RunKeeps(c, keys, v, threads, s, schedule);
    SettledNow(c, keys, v, Run(c, s, schedule));
  }

  /** In every reachable state each direction of each interface is its original list under pinholes. */
  lemma OriginalListsStay(
    c: Config, keys: set<IPPort>, v: AclState, threads: seq<Thread>, s: Machine, schedule: seq<nat>, i: nat, egress: bool)
    requires Sound(v) && Room(c, keys, v) && Starts(v, threads, s)
    requires forall k :: 0 <= k < |schedule| ==> schedule[k] < |threads|
    requires forall j :: 0 <= j < |threads| ==> Asked(keys, threads[j])
    ensures var v' := Run(c, s, schedule).v;
            Sound(v') && Grown(v.acls, v'.acls) && OriginalBelow(v, v', i, egress)
  {
    RunShaped(c, keys, v, threads, s, schedule);
    hide Starts, Run, Room, Sound, Grown, OriginalBelow, LayeredAt, AllServed;
    ShapedLists(c, keys, v, Run(c, s, schedule).v, i, egress);
  }

  lemma ShapedLists(c: Config, keys: set<IPPort>, v: AclState, v': AclState, i: nat, egress: bool)
    requires Sound(v) && Room(c, keys, v) && Shaped(c, keys, v, v')
    ensures OriginalBelow(v, v', i, egress)
  {
    DirectionKnown(v, i);
    DirectionKnown(v', i);
    GrownKnows(v.acls, v'.acls, Direction(ListOf(v, i), egress));
    assert LayeredAt(c, keys, v, v', i, egress) && LayeredAt(c, keys, v, v', i, !egress);
    TooFewToWrap(c, keys, v, v', i);
    hide Room, Sound, Shaped, Known, RulesOf, ListOf, Direction, Layered, Grown, KeysAt;
    LayeredSuffix(c, KeysAt(c, keys, v.interfaces, i), v'.acls, egress, Direction(ListOf(v, i), egress), Direction(ListOf(v', i), egress));
  }

  lemma TooFewToWrap(c: Config, keys: set<IPPort>, v0: AclState, v: AclState, i: nat)
    requires Sound(v0) && Sound(v) && Room(c, keys, v0)
    requires LayeredAt(c, keys, v0, v, i, false) && LayeredAt(c, keys, v0, v, i, true)
    ensures |ListOf(v, i).acls| < 256
  {
    DirectionKnown(v0, i);
    DirectionKnown(v, i);
    var at := KeysAt(c, keys, v0.interfaces, i);
    hide Tags, KeysAt, Sound, Known, Layered, ListOf, WellSplit;
    forall egress
      ensures |Direction(ListOf(v, i), egress)| <= |Direction(ListOf(v0, i), egress)| + |Tags(at)|
    {
      hide Direction;
      assert LayeredAt(c, keys, v0, v, i, egress);
      var orig, now := Direction(ListOf(v0, i), egress), Direction(ListOf(v, i), egress);
      forall k | 0 <= k < |now| - |orig|
        ensures v.acls[now[k]].tag in Tags(at)
      {
        LayeredTags(c, at, v.acls, egress, orig, now, k);
      }
      LayeredBound(c, at, v.acls, egress, orig, now, Tags(at));
    }
    assert |ListOf(v0, i).acls| + 2 * |Tags(at)| < 256;
    assert |ListOf(v, i).acls| == |Direction(ListOf(v, i), false)| + |Direction(ListOf(v, i), true)|;
    assert |ListOf(v0, i).acls| == |Direction(ListOf(v0, i), false)| + |Direction(ListOf(v0, i), true)|;
  }

  /** The packet is let through in `v` if it was in `v0` or belongs to a tunnel of the interface whose pinhole is in front. */
  ghost predicate LetsWithTunnels(c: Config, keys: set<IPPort>, v0: AclState, v: AclState, i: nat, egress: bool, p: Packet)
    requires Sound(v0) && Sound(v)
  {
    Lets(v, i, egress, p) <==> Lets(v0, i, egress, p) || TunnelledAt(c, keys, v0, v, i, egress, p)
  }

  ghost predicate TunnelledAt(c: Config, keys: set<IPPort>, v0: AclState, v: AclState, i: nat, egress: bool, p: Packet)
    requires Sound(v0) && Sound(v)
  {
    DirectionKnown(v0, i);
    DirectionKnown(v, i);
    Tunnelled(c, KeysAt(c, keys, v0.interfaces, i), v.acls, egress, Direction(ListOf(v0, i), egress), Direction(ListOf(v, i), egress), p)
  }

  /** An interface lets through what it did at first, and the packets of the tunnels whose pinholes it has. */
  lemma ShapedLets(c: Config, keys: set<IPPort>, v0: AclState, v: AclState, i: nat, egress: bool, p: Packet)
    requires Sound(v0) && Shaped(c, keys, v0, v)
    ensures LetsWithTunnels(c, keys, v0, v, i, egress, p)
  {
    DirectionKnown(v0, i);
    DirectionKnown(v, i);
    assert LayeredAt(c, keys, v0, v, i, egress);
    GrownKnows(v0.acls, v.acls, Direction(ListOf(v0, i), egress));
    hide Sound, Shaped, Known, Grown, Layered, Tunnelled, Permits, RulesOf, ListOf, WellSplit;
    LayeredMeaning(c, KeysAt(c, keys, v0.interfaces, i), v.acls, egress,
                   Direction(ListOf(v0, i), egress), Direction(ListOf(v, i), egress), p);
  }

  lemma TagInjective(p: Port, q: Port)
    ensures TagOf(p) == TagOf(q) ==> p == q
  {
    var prefix := ACL_TAG + " port ";
    assert TagOf(p)[|prefix|..] == Digits(p) && TagOf(q)[|prefix|..] == Digits(q);
    DigitsInjective(p, q);
  }

  ghost predicate Untagged(v: AclState, i: nat, egress: bool, tag: string)
    requires Sound(v)
  {
    DirectionKnown(v, i);
    !Tagged(v.acls, Direction(ListOf(v, i), egress), tag)
  }

  /** A list with a tag that the original one lacks has the pinhole of some key with that port. */
  lemma TaggedByPin(
    c: Config, keys: set<IPPort>, acls: map<nat, AclEntry>, egress: bool, orig: seq<nat>, now: seq<nat>, port: Port) returns (k: IPPort)
    requires Known(acls, orig) && Known(acls, now) && Layered(c, keys, acls, egress, orig, now)
    requires Tagged(acls, now, TagOf(port)) && !Tagged(acls, orig, TagOf(port))
    ensures k in keys && k.port == port && InFront(c, acls, egress, orig, now, k)
  {
    hide TagOf, Layered, PinholeRule;
    var j :| 0 <= j < |now| && acls[now[j]].tag == TagOf(port);
    LayeredSuffix(c, keys, acls, egress, orig, now);
    var n := |now| - |orig|;
    assert forall m :: n <= m < |now| ==> now[m] == orig[m - n];
    LayeredTags(c, keys, acls, egress, orig, now, j);
    k :| k in keys && acls[now[j]] == PinFor(c, k, egress);
    TagInjective(k.port, port);
  }

  /** A pinhole for the key's address and port is in front. */
  ghost predicate HasOwnPinhole(
    c: Config, keys: set<IPPort>, acls: map<nat, AclEntry>, egress: bool, orig: seq<nat>, now: seq<nat>, key: IPPort)
    requires Known(acls, now)
  {
    exists k :: k in keys && InFront(c, acls, egress, orig, now, k)
      && k.port == key.port && ToVppAddress(c.parse(k.ip)) == ToVppAddress(c.parse(key.ip))
  }

  ghost predicate HasOwnPinholeAt(c: Config, keys: set<IPPort>, v0: AclState, v: AclState, i: nat, egress: bool, key: IPPort)
    requires Sound(v0) && Sound(v)
  {
    DirectionKnown(v0, i);
    DirectionKnown(v, i);
    HasOwnPinhole(c, KeysAt(c, keys, v0.interfaces, i), v.acls, egress, Direction(ListOf(v0, i), egress), Direction(ListOf(v, i), egress), key)
  }

  ghost predicate AllPass(c: Config, v: AclState, key: IPPort, i: nat, egress: bool)
    requires Sound(v)
  {
    forall p :: IsTunnelPacket(c.parse(key.ip), key.port, egress, p) ==> Lets(v, i, egress, p)
  }

  /** All of a tunnel's packets pass in a direction exactly if they all passed at first or a pinhole for its own address
      and port is in front; one for another address with that port is of no use. */
  lemma TunnelPassesIff(c: Config, keys: set<IPPort>, v0: AclState, v: AclState, key: IPPort, i: nat, egress: bool)
    requires Sound(v0) && Shaped(c, keys, v0, v)
    ensures AllPass(c, v, key, i, egress) <==> AllPass(c, v0, key, i, egress) || HasOwnPinholeAt(c, keys, v0, v, i, egress, key)
  {
    hide KeysAt, Lets, LayeredAt, Grown, Sound, Known, WellSplit, ListOf, Direction, IsTunnelPacket, Tunnelled, HasOwnPinhole;
    forall p | IsTunnelPacket(c.parse(key.ip), key.port, egress, p)
      ensures Lets(v, i, egress, p) <==> Lets(v0, i, egress, p) || HasOwnPinholeAt(c, keys, v0, v, i, egress, key)
    {
      ShapedLets(c, keys, v0, v, i, egress, p);
      DirectionKnown(v0, i);
      DirectionKnown(v, i);
      TunnelledIff(c, KeysAt(c, keys, v0.interfaces, i), v.acls, egress,
                   Direction(ListOf(v0, i), egress), Direction(ListOf(v, i), egress), key, p);
    }
  }

  lemma TunnelledIff(
    c: Config, keys: set<IPPort>, acls: map<nat, AclEntry>, egress: bool, orig: seq<nat>, now: seq<nat>, key: IPPort, p: Packet)
    requires Known(acls, now) && IsTunnelPacket(c.parse(key.ip), key.port, egress, p)
    ensures Tunnelled(c, keys, acls, egress, orig, now, p) <==> HasOwnPinhole(c, keys, acls, egress, orig, now, key)
  {
    hide InFront, ToVppAddress;
    forall k | k in keys
      ensures IsTunnelPacket(c.parse(k.ip), k.port, egress, p) <==>
              k.port == key.port && ToVppAddress(c.parse(k.ip)) == ToVppAddress(c.parse(key.ip))
    {
      if IsTunnelPacket(c.parse(k.ip), k.port, egress, p) {
        TunnelsApart(c.parse(k.ip), k.port, c.parse(key.ip), key.port, egress, p);
      }
    }
    hide IsTunnelPacket;
  }

  /** No tunnel of another address on the interface has the key's port. */
  ghost predicate OwnPort(c: Config, keys: set<IPPort>, interfaces: seq<Interface>, i: nat, key: IPPort) {
    forall k :: k in KeysAt(c, keys, interfaces, i) && k.port == key.port ==>
      ToVppAddress(c.parse(k.ip)) == ToVppAddress(c.parse(key.ip))
  }

  /** So a served tunnel's packets pass in both directions if no tunnel of another address on its interface shares its
      port and the interface did not have its tag from the start. */
  lemma ServedTunnelPasses(
    c: Config, keys: set<IPPort>, v0: AclState, v: AclState, key: IPPort, i: nat, egress: bool, p: Packet)
    requires Sound(v0) && Shaped(c, keys, v0, v) && key in keys && Served(c, v, key)
    requires c.parse(key.ip) != [] && key.port != 0 && FindInterface(v0.interfaces, c.parse(key.ip)) == Some(i)
    requires OwnPort(c, keys, v0.interfaces, i, key) && Untagged(v0, i, egress, TagOf(key.port))
    requires IsTunnelPacket(c.parse(key.ip), key.port, egress, p)
    ensures Lets(v, i, egress, p)
  {
    hide TagOf, IsTunnelPacket, ToVppAddress;
    DirectionKnown(v0, i);
    DirectionKnown(v, i);
    var at := KeysAt(c, keys, v0.interfaces, i);
    var orig, now := Direction(ListOf(v0, i), egress), Direction(ListOf(v, i), egress);
    assert LayeredAt(c, keys, v0, v, i, egress);
    GrownKnows(v0.acls, v.acls, orig);
    assert !Opens(v, i, egress, TagOf(key.port));
    assert now == [] ==> Lets(v, i, egress, p);
    if now != [] {
      hide FindInterface, Layered, Lets, Shaped, Served, Sound, Grown, LayeredAt, Tagged, KeysAt;
      assert Tagged(v.acls, now, TagOf(key.port)) && !Tagged(v.acls, orig, TagOf(key.port));
      var k := TaggedByPin(c, at, v.acls, egress, orig, now, key.port);
      assert HasOwnPinhole(c, at, v.acls, egress, orig, now, key);
      TunnelledIff(c, at, v.acls, egress, orig, now, key, p);
      ShapedLets(c, keys, v0, v, i, egress, p);
    }
  }

  // ---- Progress ----

  predicate AllFinished(s: Machine) {
    forall i :: 0 <= i < |s.threads| ==> Finished(s.threads[i])
  }

  /** How far a program counter is from the end of its round. */
  function PcRank(pc: Pc): nat {
    match pc
    case Checking => 10
    case Waiting => 9
    case DoubleChecking => 8
    case Looking => 7
    case Dumping(_) => 6
    case AddingIngress(_, _, _) => 5
    case AddingEgress(_, _, _, _) => 4
    case Writing(_, _, _, _) => 3
    case Created(_) => 2
    case Unlocking(_) => 1
    case Failed => 0
  }

  function Rank(t: Thread): nat {
    if Finished(t) then 0 else 11 * |t.todo| + PcRank(t.pc)
  }

  function TotalRank(threads: seq<Thread>): nat {
    if threads == [] then 0 else Rank(threads[0]) + TotalRank(threads[1..])
  }

  lemma {:induction false} TotalRankUpdate(threads: seq<Thread>, i: nat, t: Thread)
    requires i < |threads|
    ensures TotalRank(threads[i := t]) == TotalRank(threads) - Rank(threads[i]) + Rank(t)
  {
    hide Rank;
    if i == 0 {
      assert threads[0 := t][1..] == threads[1..];
    } else {
      assert threads[i := t][1..] == threads[1..][i - 1 := t];
      TotalRankUpdate(threads[1..], i - 1, t);
    }
  }

  /** Whether thread `i` can move. */
  predicate Enabled(s: Machine, i: nat)
    requires i < |s.threads|
  {
    !Finished(s.threads[i]) && (s.threads[i].pc == Waiting ==> s.mutex == None)
  }

  /** There is no deadlock: while a request is unfinished, some request can move. */
  lemma NoDeadlock(s: Machine)
    requires Exclusive(s) && !AllFinished(s)
    ensures exists i :: 0 <= i < |s.threads| && Enabled(s, i)
  {
    if s.mutex.Some? {
      assert InTurn(s.threads[s.mutex.value], true);
      assert Enabled(s, s.mutex.value);
    } else {
      var i :| 0 <= i < |s.threads| && !Finished(s.threads[i]);
      assert Enabled(s, i);
    }
  }

  lemma EnabledStepDescends(c: Config, s: Machine, i: nat)
    requires i < |s.threads| && Enabled(s, i)
    ensures TotalRank(Step(c, s, i).threads) < TotalRank(s.threads)
  {
    hide TotalRank;
    var s' := Step(c, s, i);
    StepDescends(c, s, i);
    TotalRankUpdate(s.threads, i, s'.threads[i]);
  }

  lemma StepDescends(c: Config, s: Machine, i: nat)
    requires i < |s.threads| && Enabled(s, i)
    ensures Step(c, s, i).threads == s.threads[i := Step(c, s, i).threads[i]]
    ensures Rank(Step(c, s, i).threads[i]) < Rank(s.threads[i])
  {
    hide AfterLookup, AfterDump, AfterExtend, AfterWrite, TagOf;
  }

  ghost predicate EffectiveSchedule(c: Config, s: Machine, schedule: seq<nat>)
    requires forall k :: 0 <= k < |schedule| ==> schedule[k] < |s.threads|
  {
    forall k :: 0 <= k < |schedule| ==> Enabled(Run(c, s, schedule[..k]), schedule[k])
  }

  /** Every request ends: no schedule can go on making steps for ever. */
  lemma {:induction false} SchedulesEnd(c: Config, s: Machine, schedule: seq<nat>)
    requires forall k :: 0 <= k < |schedule| ==> schedule[k] < |s.threads|
    requires EffectiveSchedule(c, s, schedule)
    ensures |schedule| + TotalRank(Run(c, s, schedule).threads) <= TotalRank(s.threads)
  {
    hide TotalRank, Enabled;
    if schedule != [] {
      var last := |schedule| - 1;
      var before := schedule[..last];
      assert forall k :: 0 <= k < last ==> before[..k] == schedule[..k];
      SchedulesEnd(c, s, before);
      EnabledStepDescends(c, Run(c, s, before), schedule[last]);
    }
  }

  /** Under every schedule and every pattern of failures an interface lets through exactly what it did at
      first and the packets of the tunnels whose pinholes it has; and both directions of the interface of every tunnel
      in an `ipPortMap` are empty or have the tag. */
  lemma RunLets(
    c: Config, keys: set<IPPort>, v: AclState, threads: seq<Thread>, s: Machine, schedule: seq<nat>, i: nat, egress: bool, p: Packet)
    requires Sound(v) && Room(c, keys, v) && Starts(v, threads, s)
    requires forall k :: 0 <= k < |schedule| ==> schedule[k] < |threads|
    requires forall j :: 0 <= j < |threads| ==> Asked(keys, threads[j])
    ensures var s' := Run(c, s, schedule);
            Sound(s'.v) && AllServed(c, s'.v, s'.served) && LetsWithTunnels(c, keys, v, s'.v, i, egress, p)
  {
    RunShaped(c, keys, v, threads, s, schedule);
    hide Starts, Run, Room, AllServed, LayeredAt, Sound, LetsWithTunnels, Grown;
    ShapedLets(c, keys, v, Run(c, s, schedule).v, i, egress, p);
  }

  // ---- One request ----

  /** What a request does to VPP and to the `ipPortMap`s if it is not interrupted. */
  function AfterKeys(c: Config, v: AclState, served: set<Entry>, isClient: bool, todo: seq<IPPort>): (AclState, set<Entry>, bool)
    decreases |todo|
  {
    if todo == [] then (v, served, true)
    else if Entry(isClient, todo[0]) in served then AfterKeys(c, v, served, isClient, todo[1..])
    else
      var (v', ok) := Whole(c, v, todo[0]);
      if ok then AfterKeys(c, v', served + {Entry(isClient, todo[0])}, isClient, todo[1..])
      else (v', served, false)
  }

  /** What is left of a request. */
  function Rest(c: Config, v: AclState, served: set<Entry>, t: Thread): (AclState, set<Entry>, bool) {
    if t.pc == Failed then (v, served, false)
    else if t.todo == [] || !Critical(t.pc) || t.pc == DoubleChecking then AfterKeys(c, v, served, t.isClient, t.todo)
    else if t.pc.Unlocking? then
      if t.pc.ok then AfterKeys(c, v, served, t.isClient, t.todo[1..]) else (v, served, false)
    else
      var (v', ok) := Finish(c, v, t.todo[0], t.pc);
      if ok then AfterKeys(c, v', served + {Entry(t.isClient, t.todo[0])}, t.isClient, t.todo[1..])
      else (v', served, false)
  }

  /** The machine's steps add up to the request of the program below. */
  lemma StepKeepsRest(c: Config, s: Machine, i: nat)
    requires i < |s.threads| && Enabled(s, i)
    ensures var s' := Step(c, s, i);
            Rest(c, s'.v, s'.served, s'.threads[i]) == Rest(c, s.v, s.served, s.threads[i])
  {
    var t := s.threads[i];
    hide Whole, CreateStep;
    if Creating(t.pc) { CreatingKeepsRest(c, s, i); }
  }

  lemma CreatingKeepsRest(c: Config, s: Machine, i: nat)
    requires i < |s.threads| && Enabled(s, i) && Creating(s.threads[i].pc)
    ensures var s' := Step(c, s, i);
            Rest(c, s'.v, s'.served, s'.threads[i]) == Rest(c, s.v, s.served, s.threads[i])
  {
    hide CreateStep, AfterKeys, Finish;
    CreateStepKeepsFinish(c, s.v, s.threads[i].todo[0], s.threads[i].pc);
  }

  /** A request that no other disturbs can always move, and comes to its end. */
  lemma {:induction false} FinishAlone(c: Config, s: Machine) returns (schedule: seq<nat>)
    requires |s.threads| == 1 && Exclusive(s)
    ensures forall k :: 0 <= k < |schedule| ==> schedule[k] == 0
    ensures var s' := Run(c, s, schedule);
            Finished(s'.threads[0]) && Rest(c, s'.v, s'.served, s'.threads[0]) == Rest(c, s.v, s.served, s.threads[0])
  {
    hide Step, Rest, Rank, Exclusive, Enabled, Finished;
    schedule := [];
    var s' := s;
    while !Finished(s'.threads[0])
      invariant forall k :: 0 <= k < |schedule| ==> schedule[k] == 0
      invariant s' == Run(c, s, schedule) && |s'.threads| == 1 && Exclusive(s')
      invariant Rest(c, s'.v, s'.served, s'.threads[0]) == Rest(c, s.v, s.served, s.threads[0])
      decreases Rank(s'.threads[0])
    {
      EnabledAlone(s');
      StepKeepsRest(c, s', 0);
      StepDescends(c, s', 0);
      StepExclusive(c, s', 0);
      assert (schedule + [0])[..|schedule|] == schedule;
      schedule := schedule + [0];
      s' := Step(c, s', 0);
    }
  }

  lemma EnabledAlone(s: Machine)
    requires |s.threads| == 1 && Exclusive(s) && !Finished(s.threads[0])
    ensures Enabled(s, 0)
  {
    assert InTurn(s.threads[0], s.mutex == Some(0));
  }

  // ---- Exactly when a served tunnel passes under every schedule ----

  /** In every run of requests for the keys, whatever VPP answers, all packets of the key's tunnel pass once the key is in
      one of the maps. */
  ghost predicate AlwaysPasses(c: Config, keys: set<IPPort>, v: AclState, key: IPPort, i: nat, egress: bool) {
    forall o, threads, s, schedule :: Possible(keys, v, threads, s, schedule) ==>
      PassesIn(Config(o, c.parse), s, schedule, key, i, egress)
  }

  ghost predicate Possible(keys: set<IPPort>, v: AclState, threads: seq<Thread>, s: Machine, schedule: seq<nat>) {
    && Starts(v, threads, s)
    && (forall k :: 0 <= k < |schedule| ==> schedule[k] < |threads|)
    && forall j :: 0 <= j < |threads| ==> Asked(keys, threads[j])
  }

  ghost predicate PassesIn(c: Config, s: Machine, schedule: seq<nat>, key: IPPort, i: nat, egress: bool)
    requires forall k :: 0 <= k < |schedule| ==> schedule[k] < |s.threads|
  {
    var s' := Run(c, s, schedule);
    Entry(true, key) in s'.served || Entry(false, key) in s'.served ==> Sound(s'.v) && AllPass(c, s'.v, key, i, egress)
  }

  lemma PassesIfOwnPort(
    c: Config, keys: set<IPPort>, v: AclState, threads: seq<Thread>, s: Machine, schedule: seq<nat>, key: IPPort, i: nat, egress: bool)
    requires Sound(v) && Room(c, keys, v) && Possible(keys, v, threads, s, schedule) && key in keys
    requires c.parse(key.ip) != [] && key.port != 0 && FindInterface(v.interfaces, c.parse(key.ip)) == Some(i)
    requires AllPass(c, v, key, i, egress) || (Opens(v, i, egress, TagOf(key.port)) && OwnPort(c, keys, v.interfaces, i, key))
    ensures PassesIn(c, s, schedule, key, i, egress)
  {
    RunKeeps(c, keys, v, threads, s, schedule);
    var s' := Run(c, s, schedule);
    SettledNow(c, keys, v, s');
    hide Exclusive, Linear, Settled, Run, Room, FindInterface, TagOf, Untagged, Opens, IsTunnelPacket, Lets, OwnPort, LayeredAt, Sound, Served;
    if Entry(true, key) in s'.served || Entry(false, key) in s'.served {
      assert Served(c, s'.v, key);
      forall p | IsTunnelPacket(c.parse(key.ip), key.port, egress, p)
        ensures Lets(s'.v, i, egress, p)
      {
        if AllPass(c, v, key, i, egress) {
          ShapedLets(c, keys, v, s'.v, i, egress, p);
        } else {
          OpensUntagged(v, i, egress, TagOf(key.port));
          ServedTunnelPasses(c, keys, v, s'.v, key, i, egress, p);
        }
      }
    }
  }

  lemma SameRoom(c: Config, c': Config, keys: set<IPPort>, v: AclState)
    requires c'.parse == c.parse
    ensures Room(c', keys, v) <==> Room(c, keys, v)
    ensures forall i :: KeysAt(c', keys, v.interfaces, i) == KeysAt(c, keys, v.interfaces, i)
  {
    forall i
      ensures KeysAt(c', keys, v.interfaces, i) == KeysAt(c, keys, v.interfaces, i)
    {
    }
  }

  /** A whole `create` without failures puts the pinhole in. */
  lemma WholePins(c: Config, keys: set<IPPort>, v0: AclState, v: AclState, key: IPPort, i: nat)
    requires NeverFails(c.o) && Sound(v0) && Room(c, keys, v0) && Shaped(c, keys, v0, v) && key in keys
    requires c.parse(key.ip) != [] && key.port != 0 && FindInterface(v0.interfaces, c.parse(key.ip)) == Some(i)
    ensures var (v', ok) := Whole(c, v, key);
            ok && Shaped(c, keys, v0, v') && Pinned(v, v', c.parse(key.ip), key.port, TagOf(key.port), i)
  {
    WholeKeeps(c, keys, v0, v, key);
    CreateSucceeds(c.o, v, c.parse(key.ip), key.port, TagOf(key.port), i);
    ShapedFits(c, keys, v0, v, key, i);
    hide Fits, FindInterface, Sound, Room, Pinned, Untouched, TagOf, AfterCreate, LayeredAt, Grown;
    WholeEffect(c, v, key);
  }

  /** One request for both keys, the other first: the second finds the tag. */
  lemma OtherFirst(c: Config, keys: set<IPPort>, v: AclState, other: IPPort, key: IPPort, i: nat, egress: bool, p: Packet)
    requires NeverFails(c.o) && Sound(v) && Room(c, keys, v) && key in keys && other in KeysAt(c, keys, v.interfaces, i)
    requires c.parse(key.ip) != [] && c.parse(other.ip) != [] && key.port == other.port != 0
    requires FindInterface(v.interfaces, c.parse(key.ip)) == Some(i) && Opens(v, i, egress, TagOf(key.port))
    requires ToVppAddress(c.parse(other.ip)) != ToVppAddress(c.parse(key.ip))
    requires IsTunnelPacket(c.parse(key.ip), key.port, egress, p) && !Lets(v, i, egress, p)
    ensures var (v', served, ok) := AfterKeys(c, v, {}, true, [other, key]);
            ok && Entry(true, key) in served && Sound(v') && !Lets(v', i, egress, p)
  {
    ShapedInitially(c, keys, v);
    hide FindInterface, TagOf, IsTunnelPacket, Lets, Opens, Pinned, Sound, Room, ToVppAddress, Whole, LayeredAt, Grown;
    WholePins(c, keys, v, v, other, i);
    var v1 := Whole(c, v, other).0;
    WholePins(c, keys, v, v1, key, i);
    var v2 := Whole(c, v1, key).0;
    SharedPortIsShadowed(v, v1, v2, c.parse(other.ip), c.parse(key.ip), key.port, i, egress, p);
    assert [other, key][1..] == [key] && [key][1..] == [];
    assert key != other;
    assert Entry(true, key) !in {} + {Entry(true, other)};
    assert AfterKeys(c, v1, {} + {Entry(true, other)}, true, [key]) == (v2, {} + {Entry(true, other)} + {Entry(true, key)}, true);
  }

  lemma LosesUnlessOwnPort(c: Config, keys: set<IPPort>, v: AclState, key: IPPort, i: nat, egress: bool)
    requires NeverFails(c.o) && Sound(v) && Room(c, keys, v) && key in keys
    requires c.parse(key.ip) != [] && key.port != 0 && FindInterface(v.interfaces, c.parse(key.ip)) == Some(i)
    requires Opens(v, i, egress, TagOf(key.port)) && !AllPass(c, v, key, i, egress) && !OwnPort(c, keys, v.interfaces, i, key)
    ensures exists threads, s, schedule :: Possible(keys, v, threads, s, schedule) && !PassesIn(c, s, schedule, key, i, egress)
  {
    var p :| IsTunnelPacket(c.parse(key.ip), key.port, egress, p) && !Lets(v, i, egress, p);
    var other :| other in KeysAt(c, keys, v.interfaces, i) && other.port == key.port
      && ToVppAddress(c.parse(other.ip)) != ToVppAddress(c.parse(key.ip));
    NoEmptyAddress(v.interfaces);
    assert other in keys && c.parse(other.ip) != [];
    hide FindInterface, TagOf, IsTunnelPacket, Lets, Opens, Sound, Room, ToVppAddress, KeysAt, AfterKeys, Starts, Run;
    OtherFirst(c, keys, v, other, key, i, egress, p);
    var threads, s, schedule := OneRequest(c, v, [other, key]);
    assert Asked(keys, threads[0]);
    assert Possible(keys, v, threads, s, schedule);
    assert !PassesIn(c, s, schedule, key, i, egress);
  }

  /** A run of one request alone. */
  lemma OneRequest(c: Config, v: AclState, todo: seq<IPPort>) returns (threads: seq<Thread>, s: Machine, schedule: seq<nat>)
    ensures threads == [Thread(true, todo, Checking)] && Starts(v, threads, s)
    ensures forall k :: 0 <= k < |schedule| ==> schedule[k] < |threads|
    ensures var (v', served, ok) := AfterKeys(c, v, {}, true, todo);
            ok ==> Run(c, s, schedule).v == v' && Run(c, s, schedule).served == served
  {
    threads := [Thread(true, todo, Checking)];
    s := Machine(v, None, {}, threads, v);
    assert Exclusive(s) by { assert InTurn(threads[0], false); }
    schedule := FinishAlone(c, s);
    hide Run, Whole;
  }

  /** Where no pinhole is put in, a request changes nothing for the tunnel. */
  lemma LosesUnlessOpens(c: Config, keys: set<IPPort>, v: AclState, key: IPPort, i: nat, egress: bool)
    requires NeverFails(c.o) && Sound(v) && Room(c, keys, v) && key in keys
    requires c.parse(key.ip) != [] && key.port != 0 && FindInterface(v.interfaces, c.parse(key.ip)) == Some(i)
    requires !Opens(v, i, egress, TagOf(key.port)) && !AllPass(c, v, key, i, egress)
    ensures exists threads, s, schedule :: Possible(keys, v, threads, s, schedule) && !PassesIn(c, s, schedule, key, i, egress)
  {
    var p :| IsTunnelPacket(c.parse(key.ip), key.port, egress, p) && !Lets(v, i, egress, p);
    ShapedInitially(c, keys, v);
    hide FindInterface, TagOf, IsTunnelPacket, Lets, Opens, Pinned, Sound, Room, Whole, LayeredAt, Grown, Starts, Run;
    WholePins(c, keys, v, v, key, i);
    var v1 := Whole(c, v, key).0;
    PinnedLets(v, v1, c.parse(key.ip), key.port, TagOf(key.port), i, egress, p);
    assert AfterKeys(c, v, {}, true, [key]) == (v1, {} + {Entry(true, key)}, true);
    hide AfterKeys;
    var threads, s, schedule := OneRequest(c, v, [key]);
    assert Asked(keys, threads[0]);
    assert Possible(keys, v, threads, s, schedule);
    assert !PassesIn(c, s, schedule, key, i, egress);
  }

  /** All packets of the key's tunnel pass in every run in which the key has been served, exactly if they all passed at
      first, or the direction has lists, none with the tag, and no tunnel of another address on the interface has the key's
      port. */
  lemma AlwaysPassesIff(c: Config, keys: set<IPPort>, v: AclState, key: IPPort, i: nat, egress: bool)
    requires Sound(v) && Room(c, keys, v) && key in keys
    requires key.port != 0 && FindInterface(v.interfaces, c.parse(key.ip)) == Some(i)
    ensures AlwaysPasses(c, keys, v, key, i, egress) <==>
            || AllPass(c, v, key, i, egress)
            || (Opens(v, i, egress, TagOf(key.port)) && OwnPort(c, keys, v.interfaces, i, key))
  {
    NoEmptyAddress(v.interfaces);
    if AllPass(c, v, key, i, egress) || (Opens(v, i, egress, TagOf(key.port)) && OwnPort(c, keys, v.interfaces, i, key)) {
      forall o, threads, s, schedule | Possible(keys, v, threads, s, schedule)
        ensures PassesIn(Config(o, c.parse), s, schedule, key, i, egress)
      {
        SameRoom(c, Config(o, c.parse), keys, v);
        PassesIfOwnPort(Config(o, c.parse), keys, v, threads, s, schedule, key, i, egress);
      }
    } else {
      var c' := Config(n => Reply(true, 0), c.parse);
      SameRoom(c, c', keys, v);
      if Opens(v, i, egress, TagOf(key.port)) {
        LosesUnlessOwnPort(c', keys, v, key, i, egress);
      } else {
        LosesUnlessOpens(c', keys, v, key, i, egress);
      }
    }
    hide Possible, PassesIn, AllPass, OwnPort, Sound, Room, FindInterface, Opens, TagOf;
  }

  lemma OpensUntagged(v: AclState, i: nat, egress: bool, tag: string)
    requires Sound(v) && Opens(v, i, egress, tag)
    ensures Untagged(v, i, egress, tag)
  {
  }

  // ---- The program ----

  function Present(keys: seq<Option<IPPort>>): seq<IPPort> {
    if keys == [] then []
    else Present(keys[..|keys| - 1]) + (if keys[|keys| - 1].Some? then [keys[|keys| - 1].value] else [])
  }

  lemma PresentNext(keys: seq<Option<IPPort>>, i: nat)
    requires i < |keys|
    ensures Present(keys[..i + 1]) == if keys[i].Some? then Present(keys[..i]) + [keys[i].value] else Present(keys[..i])
  {
    assert keys[..i + 1][..i] == keys[..i];
  }

  lemma {:induction false} AfterKeysAppend(c: Config, v: AclState, served: set<Entry>, isClient: bool, todo: seq<IPPort>, key: IPPort)
    requires AfterKeys(c, v, served, isClient, todo).2
    ensures AfterKeys(c, v, served, isClient, todo + [key]) ==
            var (v', served', _) := AfterKeys(c, v, served, isClient, todo);
            AfterKeys(c, v', served', isClient, [key])
    decreases |todo|
  {
    hide Whole;
    if todo == [] {
      assert todo + [key] == [key];
    } else {
      assert (todo + [key])[1..] == todo[1..] + [key];
      if Entry(isClient, todo[0]) in served {
        AfterKeysAppend(c, v, served, isClient, todo[1..], key);
      } else {
        AfterKeysAppend(c, Whole(c, v, todo[0]).0, served + {Entry(isClient, todo[0])}, isClient, todo[1..], key);
      }
    }
  }

  /** A request that has failed has failed for good. */
  lemma {:induction false} AfterKeysFailed(c: Config, v: AclState, served: set<Entry>, isClient: bool, todo: seq<IPPort>, more: seq<IPPort>)
    requires !AfterKeys(c, v, served, isClient, todo).2
    ensures AfterKeys(c, v, served, isClient, todo + more) == AfterKeys(c, v, served, isClient, todo)
    decreases |todo|
  {
    hide Whole;
    assert (todo + more)[1..] == todo[1..] + more;
    if Entry(isClient, todo[0]) in served {
      AfterKeysFailed(c, v, served, isClient, todo[1..], more);
    } else if Whole(c, v, todo[0]).1 {
      AfterKeysFailed(c, Whole(c, v, todo[0]).0, served + {Entry(isClient, todo[0])}, isClient, todo[1..], more);
    }
  }

  /** The client or the server element. */
  class Element {
    const vppConn: Conn
    const parse: string -> IP
    const isClient: bool
    var ipPortMap: set<IPPort>

    constructor (vppConn: Conn, parse: string -> IP, isClient: bool)
      ensures this.vppConn == vppConn && this.parse == parse && this.isClient == isClient && ipPortMap == {}
    {
      this.vppConn, this.parse, this.isClient := vppConn, parse, isClient;
      ipPortMap := {};
    }

    ghost function Served(): set<Entry>
      reads this
    {
      set k | k in ipPortMap :: Entry(isClient, k)
    }

    /** From the answer of the next element on: pinholes for the keys of the mechanism and of the context. */
    method Request(keys: seq<Option<IPPort>>) returns (ok: bool)
      modifies this, vppConn
      ensures (vppConn.St(), Served(), ok) ==
              AfterKeys(Config(vppConn.oracle, parse), old(vppConn.St()), old(Served()), isClient, Present(keys))
    {
      ghost var c, v, served := Config(vppConn.oracle, parse), vppConn.St(), Served();
      ok := true;
      assert Present(keys[..0]) == [] && AfterKeys(c, v, served, isClient, []) == (v, served, true);
      hide AfterKeys, Present;
      var i := 0;
      while i < |keys|
        invariant i <= |keys| && ok
        invariant (vppConn.St(), Served(), true) == AfterKeys(c, v, served, isClient, Present(keys[..i]))
      {
        PresentNext(keys, i);
        if keys[i].Some? {
          AfterKeysAppend(c, v, served, isClient, Present(keys[..i]), keys[i].value);
          ok := RequestKey(keys[i].value);
          if !ok {
            FailedPrefix(c, v, served, isClient, keys, i + 1);
            return;
          }
        }
        i := i + 1;
      }
      assert keys[..|keys|] == keys;
    }

    /** Double-checked, under the mutex. */
    method RequestKey(key: IPPort) returns (ok: bool)
      modifies this, vppConn
      ensures (vppConn.St(), Served(), ok) ==
              AfterKeys(Config(vppConn.oracle, parse), old(vppConn.St()), old(Served()), isClient, [key])
    {
      hide AfterCreate, TagOf;
      ok := true;
      if key !in ipPortMap {
        ok := vppConn.Create(parse(key.ip), key.port, TagOf(key.port));
        if ok {
          ipPortMap := ipPortMap + {key};
          assert Served() == old(Served()) + {Entry(isClient, key)};
        }
      }
    }
  }

  lemma PresentLast(keys: seq<Option<IPPort>>)
    requires keys != []
    ensures var last := |keys| - 1;
            Present(keys) == Present(keys[..last]) + if keys[last].Some? then [keys[last].value] else []
  {
  }

  lemma {:induction false} FailedPrefix(c: Config, v: AclState, served: set<Entry>, isClient: bool, keys: seq<Option<IPPort>>, n: nat)
    requires n <= |keys| && !AfterKeys(c, v, served, isClient, Present(keys[..n])).2
    ensures AfterKeys(c, v, served, isClient, Present(keys)) == AfterKeys(c, v, served, isClient, Present(keys[..n]))
  {
    hide Present, AfterKeys;
    if n == |keys| {
      assert keys[..n] == keys;
    } else {
      var last := |keys| - 1;
      PresentLast(keys);
      assert keys[..last][..n] == keys[..n];
      FailedPrefix(c, v, served, isClient, keys[..last], n);
      AfterKeysFailed(c, v, served, isClient, Present(keys[..last]), if keys[last].Some? then [keys[last].value] else []);
    }
  }
}
