/** The monitor of one vl3-NSE (pkg/networkservice/vl3lb/common.go): each event of its connection stream
    is filtered by the selector and turned into one `addServers` and one `deleteServers` call. */
module Vl3lbMonitor {
  import opened Collections
  import opened GoNet
  import opened IpTypes
  import opened Vpp
  import opened Vl3lb

  datatype EventType = INITIAL_STATE_TRANSFER | UPDATE | DELETE
  datatype ConnState = UP | DOWN | REFRESH_REQUESTED | RESELECT_REQUESTED

  datatype Connection = Connection(id: string, labels: map<string, string>, state: ConnState, srcIPs: seq<IP>)

  /** A monitor event; its connections are keyed by their ids. */
  datatype Event = Event(eventType: EventType, connections: map<string, Connection>)

  type Selector = map<string, string>

  /** Reading a Go map of strings at a key it lacks gives the empty string. */
  function Label(labels: map<string, string>, k: string): string {
    if k in labels then labels[k] else ""
  }

  /** One matching label is enough. */
  predicate Selected(c: Connection, selector: Selector) {
    exists k :: k in selector && Label(c.labels, k) == selector[k]
  }

  predicate Gone(ev: Event, c: Connection) {
    ev.eventType == DELETE || c.state == DOWN
  }

  /** The stream keys connections by id, and a connection to be added has a source address
      (without one the program panics). */
  predicate WellFormedEvent(ev: Event, selector: Selector) {
    forall id :: id in ev.connections ==>
      && ev.connections[id].id == id
      && (Selected(ev.connections[id], selector) && !Gone(ev, ev.connections[id]) ==> ev.connections[id].srcIPs != [])
  }

  function ToAdd(ev: Event, selector: Selector): set<string> {
    set id | id in ev.connections && Selected(ev.connections[id], selector) && !Gone(ev, ev.connections[id])
  }

  function ToDelete(ev: Event, selector: Selector): set<string> {
    set id | id in ev.connections && Selected(ev.connections[id], selector) && Gone(ev, ev.connections[id])
  }

  function Matching(c: Connection, labels: set<string>, selector: Selector): set<string> {
    set k | k in labels && k in selector && Label(c.labels, k) == selector[k]
  }

  /** How often a connection is listed for deletion: a deleted one once for each label that matches, one that is down once. */
  function TimesListed(ev: Event, selector: Selector, id: string): (n: nat)
    ensures id !in ev.connections ==> n == 0
  {
    if id !in ev.connections then 0
    else if ev.eventType == DELETE then |Matching(ev.connections[id], selector.Keys, selector)|
    else if id in ToDelete(ev, selector) then 1 else 0
  }

  lemma MatchingMore(c: Connection, labels: set<string>, selector: Selector, k: string)
    requires k !in labels
    ensures |Matching(c, labels + {k}, selector)| ==
            |Matching(c, labels, selector)| + if k in selector && Label(c.labels, k) == selector[k] then 1 else 0
  {
    assert Matching(c, labels + {k}, selector) ==
      Matching(c, labels, selector) + if k in selector && Label(c.labels, k) == selector[k] then {k} else {};
  }

  function Added(ev: Event, selector: Selector, targetPort: Port): map<string, Endpoint>
    requires WellFormedEvent(ev, selector)
  {
    map id | id in ToAdd(ev, selector) :: Endpoint(ev.connections[id].srcIPs[0], targetPort)
  }

  /** What an event means for the servers of its NSE: a selected connection that is deleted or down
      leaves, any other selected connection has its endpoint set, all else stays. */
  function AfterEvent(m: map<string, Endpoint>, ev: Event, selector: Selector, targetPort: Port)
    : map<string, Endpoint>
    requires WellFormedEvent(ev, selector)
  {
    map id | id in m.Keys + ev.connections.Keys &&
             (if id in ev.connections && Selected(ev.connections[id], selector)
              then !Gone(ev, ev.connections[id])
              else id in m)
      :: if id in ToAdd(ev, selector) then Endpoint(ev.connections[id].srcIPs[0], targetPort) else m[id]
  }

  ghost predicate WellFormedStream(events: seq<Event>, selector: Selector) {
    forall i :: 0 <= i < |events| ==> WellFormedEvent(events[i], selector)
  }

  ghost function AfterEvents(events: seq<Event>, selector: Selector, targetPort: Port): map<string, Endpoint>
    requires WellFormedStream(events, selector)
  {
    if events == [] then map[]
    else AfterEvent(AfterEvents(events[..|events| - 1], selector, targetPort), events[|events| - 1], selector, targetPort)
  }

  /** The two handler calls an event becomes. */
  function EventCalls(nse: string, ev: Event, selector: Selector, targetPort: Port): seq<Call>
    requires WellFormedEvent(ev, selector)
  {
    [Add(nse, Added(ev, selector, targetPort)), Delete(nse, ToDelete(ev, selector))]
  }

  ghost function StreamCalls(nse: string, events: seq<Event>, selector: Selector, targetPort: Port): seq<Call>
    requires WellFormedStream(events, selector)
  {
    if events == [] then []
    else StreamCalls(nse, events[..|events| - 1], selector, targetPort) +
         EventCalls(nse, events[|events| - 1], selector, targetPort)
  }

  /** The calls of one NSE, in order. */
  function OwnCalls(nse: string, calls: seq<Call>): seq<Call> {
    if calls == [] then []
    else
      var before := OwnCalls(nse, calls[..|calls| - 1]);
      if calls[|calls| - 1].nse == nse then before + [calls[|calls| - 1]] else before
  }

  /** Adding first and deleting second is the meaning of the event. */
  lemma EventCallsMeanEvent(m: map<string, Endpoint>, ev: Event, selector: Selector, targetPort: Port)
    requires WellFormedEvent(ev, selector)
    ensures m + Added(ev, selector, targetPort) - ToDelete(ev, selector) == AfterEvent(m, ev, selector, targetPort)
  {
    assert ToAdd(ev, selector) !! ToDelete(ev, selector);
  }

  /** What one event decides for one connection, in the event's own terms. A missing label reads as the empty string. */
  lemma EventDecides(m: map<string, Endpoint>, nse: string, ev: Event, selector: Selector, targetPort: Port, id: string)
    requires WellFormedEvent(ev, selector)
    ensures var calls, after := EventCalls(nse, ev, selector, targetPort), AfterEvent(m, ev, selector, targetPort);
            && calls[0] == Add(nse, calls[0].add) && calls[1] == Delete(nse, calls[1].del) && |calls| == 2
            && if id in ev.connections &&
                  exists k :: k in selector &&
                    selector[k] == (if k in ev.connections[id].labels then ev.connections[id].labels[k] else "")
               then
                 if ev.eventType == DELETE || ev.connections[id].state == DOWN
                 then id in calls[1].del && id !in calls[0].add && id !in after
                 else
                   && id !in calls[1].del && ev.connections[id].srcIPs != []
                   && id in calls[0].add && calls[0].add[id] == Endpoint(ev.connections[id].srcIPs[0], targetPort)
                   && id in after && after[id] == Endpoint(ev.connections[id].srcIPs[0], targetPort)
               else
                 && id !in calls[0].add && id !in calls[1].del
                 && (id in after <==> id in m) && (id in m ==> after[id] == m[id])
  {
    if id in ev.connections {
      var labels := ev.connections[id].labels;
      assert forall k :: k in selector ==> (Label(labels, k) == selector[k] <==> selector[k] == if k in labels then labels[k] else "");
    }
  }

  /** A connection of a deletion event is listed once for each label that matches, any other once if it is down and some
      label matches. */
  lemma ListedTimes(ev: Event, selector: Selector, id: string)
    requires id in ev.connections
    ensures var labels := ev.connections[id].labels;
            var matching := set k | k in selector && selector[k] == (if k in labels then labels[k] else "");
            TimesListed(ev, selector, id) ==
            if ev.eventType == DELETE then |matching|
            else if ev.connections[id].state == DOWN && matching != {} then 1 else 0
  {
    var c := ev.connections[id];
    var matching := set k | k in selector && selector[k] == (if k in c.labels then c.labels[k] else "");
    assert Matching(c, selector.Keys, selector) == matching;
    assert Selected(c, selector) <==> matching != {} by {
      if k :| k in selector && Label(c.labels, k) == selector[k] { assert k in matching; }
    }
  }

  lemma FoldOfAppend(nse: string, calls: seq<Call>, a: Call, b: Call)
    ensures FoldOf(nse, calls + [a, b]) == FoldOf(nse, calls + [a] + [b])
    ensures (calls + [a] + [b])[..|calls| + 1] == calls + [a]
    ensures (calls + [a])[..|calls|] == calls
  {
    assert calls + [a, b] == calls + [a] + [b];
  }

  lemma {:induction false} StreamCallsMeanStream(nse: string, events: seq<Event>, selector: Selector, targetPort: Port)
    requires WellFormedStream(events, selector)
    ensures FoldOf(nse, StreamCalls(nse, events, selector, targetPort)) == AfterEvents(events, selector, targetPort)
  {
    if events != [] {
      var before, ev := events[..|events| - 1], events[|events| - 1];
      StreamCallsMeanStream(nse, before, selector, targetPort);
      EventCallsMeanEvent(AfterEvents(before, selector, targetPort), ev, selector, targetPort);
      FoldOfAppend(nse, StreamCalls(nse, before, selector, targetPort),
                   EventCalls(nse, ev, selector, targetPort)[0], EventCalls(nse, ev, selector, targetPort)[1]);
    }
  }

  lemma {:induction false} FoldOfOwnCalls(nse: string, calls: seq<Call>)
    ensures FoldOf(nse, calls) == FoldOf(nse, OwnCalls(nse, calls))
  {
    if calls != [] {
      var before, c := calls[..|calls| - 1], calls[|calls| - 1];
      FoldOfOwnCalls(nse, before);
      if c.nse == nse {
        assert OwnCalls(nse, calls)[..|OwnCalls(nse, before)|] == OwnCalls(nse, before);
      }
    }
  }

  /** However the monitors of different NSEs interleave their handler calls and whichever VPP calls fail,
      the server map of an NSE is the fold of its own events, up to `Equals`. */
  lemma ServersFollowOwnEvents(
    o: Oracle, lb: Address, calls: seq<Call>, nse: string, events: seq<Event>, selector: Selector, targetPort: Port)
    requires WellFormedStream(events, selector)
    requires OwnCalls(nse, calls) == StreamCalls(nse, events, selector, targetPort)
    ensures SameServers(Entry(Run(o, lb, INITIAL, calls).servers, nse), AfterEvents(events, selector, targetPort))
  {
    EntriesFollowFold(o, lb, calls, nse);
    FoldOfOwnCalls(nse, calls);
    StreamCallsMeanStream(nse, events, selector, targetPort);
  }

  /** Once its stream has ended an NSE contributes no server, whatever the other monitors do. */
  lemma EndedStreamLeavesNothing(
    o: Oracle, lb: Address, calls: seq<Call>, nse: string, events: seq<Event>, selector: Selector, targetPort: Port)
    requires WellFormedStream(events, selector)
    requires OwnCalls(nse, calls) == StreamCalls(nse, events, selector, targetPort) + [DeleteAll(nse)]
    ensures Entry(Run(o, lb, INITIAL, calls).servers, nse).Keys == {}
  {
    EntriesFollowFold(o, lb, calls, nse);
    FoldOfOwnCalls(nse, calls);
  }

  // ---- The program ----

  /** `filterConnections`. The two results are what the loops over Go maps leave, in whatever order they run. */
  method FilterConnections(ev: Event, selector: Selector, targetPort: Port)
    returns (add: map<string, Endpoint>, del: seq<string>)
    requires WellFormedEvent(ev, selector)
    ensures add == Added(ev, selector, targetPort)
    ensures Elements(del) == ToDelete(ev, selector)
    ensures forall id :: multiset(del)[id] == TimesListed(ev, selector, id)
  {
    hide Selected, Gone, TimesListed;
    add, del := map[], [];
    var todo := ev.connections.Keys;
    while todo != {}
      invariant todo <= ev.connections.Keys
      invariant add == map id | id in ToAdd(ev, selector) - todo :: Endpoint(ev.connections[id].srcIPs[0], targetPort)
      invariant forall id :: multiset(del)[id] == if id in ev.connections && id !in todo then TimesListed(ev, selector, id) else 0
    {
      var id :| id in todo;
      add, del := FilterConnection(ev, id, selector, targetPort, add, del);
      todo := todo - {id};
    }
    ListedOnceIff(ev, selector, del);
  }

  /** The loop over the selector for one connection: a deleted connection is listed at each label that matches; for any
      other the first match ends the loop. */
  method FilterConnection(ev: Event, id: string, selector: Selector, targetPort: Port,
                          add0: map<string, Endpoint>, del0: seq<string>)
    returns (add: map<string, Endpoint>, del: seq<string>)
    requires WellFormedEvent(ev, selector)
    requires id in ev.connections
    ensures add == if id in ToAdd(ev, selector)
                   then add0[id := Endpoint(ev.connections[id].srcIPs[0], targetPort)] else add0
    ensures multiset(del) == multiset(del0)[id := multiset(del0)[id] + TimesListed(ev, selector, id)]
  {
    hide Matching, ListedMore;
    add, del := add0, del0;
    NoneMore(del0, id);
    var c := ev.connections[id];
    var labels := selector.Keys;
    NothingMatches(c, selector);
    ghost var n := 0;
    while labels != {}
      invariant labels <= selector.Keys
      invariant n == if ev.eventType == DELETE then |Matching(c, selector.Keys - labels, selector)| else 0
      invariant ListedMore(del0, del, id, n)
      invariant add == add0
      invariant ev.eventType != DELETE ==> forall k :: k in selector.Keys - labels ==> Label(c.labels, k) != selector[k]
    {
      var k :| k in labels;
      MatchingMore(c, selector.Keys - labels, selector, k);
      assert selector.Keys - (labels - {k}) == selector.Keys - labels + {k};
      if Label(c.labels, k) == selector[k] {
        if ev.eventType == DELETE {
          OneMore(del0, del, id, n);
          del := del + [c.id];
          n := n + 1;
        } else {
          if c.state == DOWN {
            OneMore(del0, del, id, n);
            del := del + [c.id];
            n := n + 1;
          } else {
            add := add[c.id := Endpoint(c.srcIPs[0], targetPort)];
          }
          break;
        }
      }
      labels := labels - {k};
    }
    assert ev.eventType == DELETE ==> selector.Keys - labels == selector.Keys;
    ListedIs(del0, del, id, n);
  }

  /** `del` is `del0` with `id` another `n` times. */
  ghost predicate ListedMore(del0: seq<string>, del: seq<string>, id: string, n: nat) {
    multiset(del) == multiset(del0)[id := multiset(del0)[id] + n]
  }

  lemma NoneMore(del: seq<string>, id: string)
    ensures ListedMore(del, del, id, 0)
  {
  }

  lemma OneMore(del0: seq<string>, del: seq<string>, id: string, n: nat)
    requires ListedMore(del0, del, id, n)
    ensures ListedMore(del0, del + [id], id, n + 1)
  {
  }

  lemma ListedIs(del0: seq<string>, del: seq<string>, id: string, n: nat)
    requires ListedMore(del0, del, id, n)
    ensures multiset(del) == multiset(del0)[id := multiset(del0)[id] + n]
  {
  }

  /** Exactly the connections to be deleted are listed. */
  lemma ListedOnceIff(ev: Event, selector: Selector, del: seq<string>)
    requires forall id :: multiset(del)[id] == TimesListed(ev, selector, id)
    ensures Elements(del) == ToDelete(ev, selector)
  {
    forall id
      ensures TimesListed(ev, selector, id) > 0 <==> id in ToDelete(ev, selector)
    {
      if id in ev.connections { SelectedIff(ev.connections[id], selector); }
    }
    hide TimesListed;
    assert forall id :: id in del <==> multiset(del)[id] > 0;
  }

  lemma SelectedIff(c: Connection, selector: Selector)
    ensures Selected(c, selector) <==> |Matching(c, selector.Keys, selector)| > 0
  {
    if k :| k in selector && Label(c.labels, k) == selector[k] {
      assert k in Matching(c, selector.Keys, selector);
    }
    if Matching(c, selector.Keys, selector) != {} {
      var k :| k in Matching(c, selector.Keys, selector);
    }
  }

  lemma NothingMatches(c: Connection, selector: Selector)
    ensures Matching(c, selector.Keys - selector.Keys, selector) == {}
  {
  }

  /** One turn of the event loop. */
  method OnEvent(h: Handler, nse: string, ev: Event, selector: Selector, targetPort: Port)
    requires WellFormedEvent(ev, selector)
    modifies h, h.vpp
    ensures h.St() == Run(h.vpp.oracle, h.lbAddr, old(h.St()), EventCalls(nse, ev, selector, targetPort))
  {
    ghost var s, calls := h.St(), EventCalls(nse, ev, selector, targetPort);
    RunConcat(h.vpp.oracle, h.lbAddr, s, calls[..1], calls[1..]);
    assert calls == calls[..1] + calls[1..];
    var add, del := FilterConnections(ev, selector, targetPort);
    var ok := h.AddServers(nse, add);
    ok := h.DeleteServers(nse, del);
  }

  /** The event loop of `balanceNSE`, up to and including the end of the stream. */
  method BalanceNSE(h: Handler, nse: string, events: seq<Event>, selector: Selector, targetPort: Port)
    requires WellFormedStream(events, selector)
    modifies h, h.vpp
    ensures h.St() == Run(h.vpp.oracle, h.lbAddr, old(h.St()),
                          StreamCalls(nse, events, selector, targetPort) + [DeleteAll(nse)])
  {
    ghost var start := h.St();
    for i := 0 to |events|
      invariant h.St() == Run(h.vpp.oracle, h.lbAddr, start, StreamCalls(nse, events[..i], selector, targetPort))
    {
      RunConcat(h.vpp.oracle, h.lbAddr, start, StreamCalls(nse, events[..i], selector, targetPort),
                EventCalls(nse, events[i], selector, targetPort));
      assert events[..i + 1][..i] == events[..i];
      hide Run, AfterAdd, AfterDelete;
      OnEvent(h, nse, events[i], selector, targetPort);
    }
    assert events[..|events|] == events;
    RunConcat(h.vpp.oracle, h.lbAddr, start, StreamCalls(nse, events, selector, targetPort), [DeleteAll(nse)]);
    var ids := h.GetServerIDsByVL3Name(nse);
    var ok := h.DeleteServers(nse, ids);
  }

  // ---- Which NSEs are monitored ----

  /** A message of the registry: an NSE is there, or has been deleted. */
  datatype Message = Message(name: string, deleted: bool)

  /** The names that the loop of `balanceService` takes for monitored. */
  function Monitored(messages: seq<Message>): set<string> {
    if messages == [] then {}
    else
      var before, m := Monitored(messages[..|messages| - 1]), messages[|messages| - 1];
      if m.deleted then before - {m.name} else before + {m.name}
  }

  /** The NSEs for which an event loop has been started, in order. */
  function Started(messages: seq<Message>): seq<string> {
    if messages == [] then []
    else
      var init, m := messages[..|messages| - 1], messages[|messages| - 1];
      if m.deleted || m.name in Monitored(init) then Started(init) else Started(init) + [m.name]
  }

  function Occurrences(names: seq<string>, name: string): nat {
    multiset(names)[name]
  }

  /** There is a message that the NSE is there, after which no deletion has come. */
  predicate Present(messages: seq<Message>, name: string) {
    exists k :: 0 <= k < |messages| && messages[k] == Message(name, false) && Message(name, true) !in messages[k..]
  }

  lemma PresentAppend(init: seq<Message>, m: Message, name: string)
    ensures Present(init + [m], name) <==> m == Message(name, false) || (m != Message(name, true) && Present(init, name))
  {
    var messages := init + [m];
    assert messages[|init|] == m && messages[|init|..] == [m];
    forall k | 0 <= k < |init|
      ensures messages[k] == init[k] && (Message(name, true) in messages[k..] <==> Message(name, true) in init[k..] || m == Message(name, true))
    {
      assert messages[k..] == init[k..] + [m];
    }
  }

  /** A name is monitored exactly if the NSE is there by the messages so far. */
  lemma {:induction false} MonitoredIff(messages: seq<Message>, name: string)
    ensures name in Monitored(messages) <==> Present(messages, name)
  {
    hide Present;
    if messages == [] {
      NeverPresent(name);
    } else {
      var last := |messages| - 1;
      MonitoredIff(messages[..last], name);
      PresentAppend(messages[..last], messages[last], name);
      assert messages == messages[..last] + [messages[last]];
    }
  }

  lemma NeverPresent(name: string)
    ensures !Present([], name)
  {
  }

  /** The messages about one NSE. */
  function About(messages: seq<Message>, name: string): seq<Message> {
    if messages == [] then []
    else
      var init, m := About(messages[..|messages| - 1], name), messages[|messages| - 1];
      if m.name == name then init + [m] else init
  }

  /** An announcement that comes first or right after a deletion. */
  predicate IsArrival(own: seq<Message>, k: nat) {
    k < |own| && !own[k].deleted && (k == 0 || own[k - 1].deleted)
  }

  function Arrivals(own: seq<Message>): set<nat> {
    set k | 0 <= k < |own| && IsArrival(own, k)
  }

  lemma ArrivalsAppend(own: seq<Message>, m: Message)
    ensures Arrivals(own + [m]) ==
            Arrivals(own) + if !m.deleted && (own == [] || own[|own| - 1].deleted) then {|own|} else {}
    ensures |own| !in Arrivals(own)
  {
    var all := own + [m];
    forall k: nat
      ensures IsArrival(all, k) <==> IsArrival(own, k) || (k == |own| && !m.deleted && (own == [] || own[|own| - 1].deleted))
    {
    }
  }

  lemma {:induction false} MonitoredByLast(messages: seq<Message>, name: string)
    ensures var own := About(messages, name);
            name in Monitored(messages) <==> own != [] && !own[|own| - 1].deleted
  {
    if messages != [] { MonitoredByLast(messages[..|messages| - 1], name); }
  }

  lemma OccurrencesAppend(names: seq<string>, n: string, name: string)
    ensures Occurrences(names + [n], name) == Occurrences(names, name) + if n == name then 1 else 0
  {
    assert multiset(names + [n]) == multiset(names) + multiset{n};
  }

  /** An NSE gets one event loop for each of its messages that announces it first or right after a deletion. */
  lemma {:induction false} LoopsExactly(messages: seq<Message>, name: string)
    ensures Occurrences(Started(messages), name) == |Arrivals(About(messages, name))|
  {
    hide Arrivals, Occurrences, Monitored;
    if messages == [] {
      NoArrivals();
    } else {
      var init, m := messages[..|messages| - 1], messages[|messages| - 1];
      LoopsExactly(init, name);
      MonitoredByLast(init, name);
      ArrivalsAppend(About(init, name), m);
      OccurrencesAppend(Started(init), m.name, name);
    }
  }

  lemma NoArrivals()
    ensures Arrivals([]) == {} && forall name :: Occurrences([], name) == 0
  {
  }

  /** The NSE is announced. */
  predicate Announced(messages: seq<Message>, name: string) {
    exists i :: 0 <= i < |messages| && messages[i] == Message(name, false)
  }

  /** It is announced and later deleted. */
  predicate Withdrawn(messages: seq<Message>, name: string) {
    exists i, j :: 0 <= i < j < |messages| && messages[i] == Message(name, false) && messages[j] == Message(name, true)
  }

  /** It is announced, later deleted, and later announced again. */
  predicate Reannounced(messages: seq<Message>, name: string) {
    exists i, j, k :: 0 <= i < j < k < |messages|
      && messages[i] == Message(name, false) && messages[j] == Message(name, true) && messages[k] == Message(name, false)
  }

  lemma AnnouncedAppend(init: seq<Message>, m: Message, name: string)
    ensures Announced(init + [m], name) <==> Announced(init, name) || m == Message(name, false)
  {
    var all := init + [m];
    assert all[|init|] == m && forall i :: 0 <= i < |init| ==> all[i] == init[i];
  }

  lemma {:induction false} WithdrawnAppend(init: seq<Message>, m: Message, name: string)
    ensures Withdrawn(init + [m], name) <==> Withdrawn(init, name) || (Announced(init, name) && m == Message(name, true))
  {
    var all := init + [m];
    assert all[|init|] == m && forall i :: 0 <= i < |init| ==> all[i] == init[i];
    if Announced(init, name) && m == Message(name, true) {
      var i :| 0 <= i < |init| && init[i] == Message(name, false);
      assert all[i] == Message(name, false);
    }
    if Withdrawn(init, name) {
      var i, j :| 0 <= i < j < |init| && init[i] == Message(name, false) && init[j] == Message(name, true);
      assert all[i] == init[i] && all[j] == init[j];
    }
  }

  lemma {:induction false} ReannouncedAppend(init: seq<Message>, m: Message, name: string)
    ensures Reannounced(init + [m], name) <==> Reannounced(init, name) || (Withdrawn(init, name) && m == Message(name, false))
  {
    if Reannounced(init + [m], name) { ReannouncedBefore(init, m, name); }
    if Withdrawn(init, name) && m == Message(name, false) { WithdrawnThenAnnounced(init, name); }
    if Reannounced(init, name) { ReannouncedStays(init, m, name); }
    hide Reannounced, Withdrawn;
  }

  lemma {:induction false} ReannouncedBefore(init: seq<Message>, m: Message, name: string)
    requires Reannounced(init + [m], name)
    ensures Reannounced(init, name) || (Withdrawn(init, name) && m == Message(name, false))
  {
    var all := init + [m];
    var i, j, k :| 0 <= i < j < k < |all|
      && all[i] == Message(name, false) && all[j] == Message(name, true) && all[k] == Message(name, false);
    assert init[i] == all[i] && init[j] == all[j];
    if k < |init| {
      assert init[k] == all[k];
      IsReannounced(init, name, i, j, k);
    } else {
      assert Withdrawn(init, name);
    }
    hide Reannounced;
  }

  lemma IsReannounced(messages: seq<Message>, name: string, i: nat, j: nat, k: nat)
    requires i < j < k < |messages|
    requires messages[i] == Message(name, false) && messages[j] == Message(name, true) && messages[k] == Message(name, false)
    ensures Reannounced(messages, name)
  {
  }

  lemma {:induction false} WithdrawnThenAnnounced(init: seq<Message>, name: string)
    requires Withdrawn(init, name)
    ensures Reannounced(init + [Message(name, false)], name)
  {
    var all := init + [Message(name, false)];
    var i, j :| 0 <= i < j < |init| && init[i] == Message(name, false) && init[j] == Message(name, true);
    assert all[i] == init[i] && all[j] == init[j] && all[|init|] == Message(name, false);
  }

  lemma {:induction false} ReannouncedStays(init: seq<Message>, m: Message, name: string)
    requires Reannounced(init, name)
    ensures Reannounced(init + [m], name)
  {
    var all := init + [m];
    var i, j, k :| 0 <= i < j < k < |init|
      && init[i] == Message(name, false) && init[j] == Message(name, true) && init[k] == Message(name, false);
    assert all[i] == init[i] && all[j] == init[j] && all[k] == init[k];
  }

  /** An NSE gets at most one event loop exactly if it is not announced again after an announcement and a deletion. Nothing
      ends the first loop when the second starts. */
  lemma {:induction false} OneLoopIff(messages: seq<Message>, name: string)
    ensures Occurrences(Started(messages), name) <= 1 <==> !Reannounced(messages, name)
    ensures Occurrences(Started(messages), name) == 0 <==> !Announced(messages, name)
    ensures Announced(messages, name) && name !in Monitored(messages) ==> Withdrawn(messages, name)
    ensures Withdrawn(messages, name) && name in Monitored(messages) ==> Reannounced(messages, name)
    ensures name in Monitored(messages) ==> Announced(messages, name)
  {
    if messages != [] {
      var init, m := messages[..|messages| - 1], messages[|messages| - 1];
      assert messages == init + [m];
      OneLoopIff(init, name);
      AnnouncedAppend(init, m, name);
      WithdrawnAppend(init, m, name);
      ReannouncedAppend(init, m, name);
      OccurrencesAppend(Started(init), m.name, name);
      hide Announced, Withdrawn, Reannounced, Occurrences;
    }
  }

  /** The registry loop of `balanceService`; `started` stands for the event loops it starts. */
  method BalanceService(messages: seq<Message>) returns (monitoredNSEs: set<string>, started: seq<string>)
    ensures monitoredNSEs == Monitored(messages) && started == Started(messages)
  {
    monitoredNSEs, started := {}, [];
    for i := 0 to |messages|
      invariant monitoredNSEs == Monitored(messages[..i]) && started == Started(messages[..i])
    {
      assert messages[..i + 1][..i] == messages[..i];
      var msg := messages[i];
      if msg.deleted {
        monitoredNSEs := monitoredNSEs - {msg.name};
        continue;
      }
      if msg.name in monitoredNSEs { continue; }
      monitoredNSEs := monitoredNSEs + {msg.name};
      started := started + [msg.name];
    }
    assert messages[..|messages|] == messages;
  }
}
