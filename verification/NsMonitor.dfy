/** Closing a connection when its client's process has gone (pkg/networkservice/nsmonitor/client.go and monitor.go): the
    requests and closes of one connection, with the two goroutines each watch starts, interleaved in any way. */
module NsMonitor {
  import opened Wrappers

  /** The goroutine of `Watch`. */
  datatype WatcherPc = Resolving | Checking | Statting | Sleeping | Sending | Shutting | WatcherDone

  /** The goroutine of `Request`. */
  datatype SelectorPc = Selecting | Received(ok: bool) | Closing | Cancelling | SelectorDone

  /** A context with its cancel function and, if the mechanism names a process, two goroutines and a channel for one
      message. `gone` is whether the process's path is missing now. No step reads `seenGone`, that the watcher has
      found it missing, or `closes`, how often the selector has asked for a close. */
  datatype Watch = Watch(cancelled: bool, watched: bool, gone: bool, seenGone: bool, watcher: WatcherPc, selector: SelectorPc,
                         buffer: nat, closed: bool, closes: nat)

  /** `current` is the watch whose cancel function the connection's metadata hold. */
  datatype Machine = Machine(current: Option<nat>, supplied: nat, chainCancelled: bool, watches: seq<Watch>)

  datatype Case = OnChain | OnCancel | OnDelete

  /** What can happen next: a request, a close, the end of the chain, a process's path going or coming back, a step of
      a watcher (`found`: whether the process is found, where that is asked) or of a selector (which of the cases
      that are ready it takes). */
  datatype Event =
    | Request(hasInodeURL: bool)
    | Close
    | CancelChain
    | Path(i: nat, gone: bool)
    | Watcher(i: nat, found: bool)
    | Selector(i: nat, c: Case)

  const CAPACITY := 1

  const START := Machine(None, 0, false, [])

  predicate Cancelled(s: Machine, i: nat)
    requires i < |s.watches|
  {
    s.watches[i].cancelled || s.chainCancelled
  }

  // ---- Steps ----

  function NewWatch(hasInodeURL: bool): Watch {
    if hasInodeURL then Watch(false, true, false, false, Resolving, Selecting, 0, false, 0)
    else Watch(false, false, false, false, WatcherDone, SelectorDone, 0, false, 0)
  }

  /** After the next element has succeeded. The monitor is supplied once. */
  function AfterRequest(s: Machine, hasInodeURL: bool): Machine {
    var s1 := s.(supplied := if s.supplied == 0 then 1 else s.supplied);
    if s.current.Some? then s1
    else s1.(current := Some(|s.watches|), watches := s.watches + [NewWatch(hasInodeURL)])
  }

  function Cancel(s: Machine, i: nat): Machine
    requires i < |s.watches|
  {
    s.(watches := s.watches[i := s.watches[i].(cancelled := true)])
  }

  function AfterClose(s: Machine): Machine {
    if s.current.Some? && s.current.value < |s.watches| then Cancel(s, s.current.value).(current := None) else s
  }

  function AfterWatcher(w: Watch, cancelled: bool, found: bool): Watch {
    match w.watcher
    case Resolving => w.(watcher := if found then Checking else Shutting)
    case Checking => w.(watcher := if cancelled then Sending else Statting)
    case Statting => if w.gone then w.(watcher := Sending, seenGone := true) else w.(watcher := Sleeping)
    case Sleeping => w.(watcher := Checking)
    case Sending => if w.buffer < CAPACITY then w.(watcher := Shutting, buffer := w.buffer + 1) else w
    case Shutting => w.(watcher := WatcherDone, closed := true)
    case WatcherDone => w
  }

  predicate Ready(w: Watch, cancelled: bool, chainCancelled: bool, c: Case) {
    match c
    case OnChain => chainCancelled
    case OnCancel => cancelled
    case OnDelete => w.buffer > 0 || w.closed
  }

  /** All of the selector but the close itself. */
  function AfterSelector(w: Watch, cancelled: bool, chainCancelled: bool, c: Case): Watch {
    match w.selector
    case Selecting =>
      if !Ready(w, cancelled, chainCancelled, c) then w
      else if c != OnDelete then w.(selector := Cancelling)
      else if w.buffer > 0 then w.(selector := Received(true), buffer := w.buffer - 1)
      else w.(selector := Received(false))
    case Received(ok) => if ok && !cancelled then w.(selector := Closing, closes := w.closes + 1) else w.(selector := Cancelling)
    case Closing => w.(selector := Cancelling)
    case Cancelling => w.(selector := SelectorDone, cancelled := true)
    case SelectorDone => w
  }

  /** A close asked for by a selector takes its turn among the requests and closes, and is dropped if the watch has been
      cancelled by then. */
  function Step(s: Machine, e: Event): Machine {
    match e
    case Request(hasInodeURL) => AfterRequest(s, hasInodeURL)
    case Close => AfterClose(s)
    case CancelChain => s.(chainCancelled := true)
    case Path(i, gone) => if i < |s.watches| then s.(watches := s.watches[i := s.watches[i].(gone := gone)]) else s
    case Watcher(i, found) =>
      if i < |s.watches| then s.(watches := s.watches[i := AfterWatcher(s.watches[i], Cancelled(s, i), found)]) else s
    case Selector(i, c) =>
      if i < |s.watches| then
        var s1 := if s.watches[i].selector == Closing && !Cancelled(s, i) then AfterClose(s) else s;
        s1.(watches := s1.watches[i := AfterSelector(s1.watches[i], Cancelled(s1, i), s1.chainCancelled, c)])
      else s
  }

  function Run(events: seq<Event>): Machine {
    if events == [] then START else Step(Run(events[..|events| - 1]), events[|events| - 1])
  }

  // ---- What every interleaving keeps ----

  predicate BeforeSend(pc: WatcherPc) {
    pc == Resolving || pc == Checking || pc == Statting || pc == Sleeping || pc == Sending
  }

  /** A watch by itself: there is one message, sent when the path was seen missing or the watch had been cancelled; a
      close is asked for at most once, and only if the path was seen missing. */
  predicate InOrder(w: Watch, cancelled: bool) {
    && w.buffer <= CAPACITY
    && (BeforeSend(w.watcher) ==> w.buffer == 0 && !w.closed && w.selector != Received(true) && w.closes == 0)
    && (w.watcher == Sending || w.buffer > 0 || w.selector == Received(true) ==> w.seenGone || cancelled)
    && (w.buffer > 0 ==> w.closes == 0)
    && (w.selector == Selecting || w.selector.Received? ==> w.closes == 0)
    && (w.selector == Received(true) ==> w.buffer == 0)
    && w.closes <= 1
    && (w.selector == Closing ==> w.closes == 1)
    && (w.closes > 0 ==> w.seenGone)
    && (w.selector == SelectorDone && w.watched ==> w.cancelled)
  }

  ghost predicate AllInOrder(s: Machine) {
    forall i :: 0 <= i < |s.watches| ==> InOrder(s.watches[i], Cancelled(s, i))
  }

  /** A watch that is not cancelled is the one the metadata hold. */
  ghost predicate OnlyCurrent(s: Machine) {
    && (s.current.Some? ==> s.current.value < |s.watches|)
    && forall i :: 0 <= i < |s.watches| && !s.watches[i].cancelled ==> s.current == Some(i)
  }

  lemma WatcherInOrder(w: Watch, cancelled: bool, found: bool)
    requires InOrder(w, cancelled)
    ensures InOrder(AfterWatcher(w, cancelled, found), cancelled) && AfterWatcher(w, cancelled, found).cancelled == w.cancelled
  {
  }

  lemma SelectingInOrder(w: Watch, cancelled: bool, chainCancelled: bool, c: Case)
    requires InOrder(w, cancelled) && w.selector == Selecting
    ensures InOrder(AfterSelector(w, cancelled, chainCancelled, c), cancelled)
    ensures AfterSelector(w, cancelled, chainCancelled, c).cancelled == w.cancelled
  {
    hide Ready;
    assert c == OnDelete && Ready(w, cancelled, chainCancelled, c) && w.buffer == 0 ==> w.closed by { ReadyToReceive(w, cancelled, chainCancelled); }
  }

  lemma ReadyToReceive(w: Watch, cancelled: bool, chainCancelled: bool)
    ensures Ready(w, cancelled, chainCancelled, OnDelete) <==> w.buffer > 0 || w.closed
  {
  }

  lemma ReceivedInOrder(w: Watch, cancelled: bool, chainCancelled: bool, c: Case)
    requires InOrder(w, cancelled) && w.selector.Received?
    ensures InOrder(AfterSelector(w, cancelled, chainCancelled, c), cancelled)
    ensures AfterSelector(w, cancelled, chainCancelled, c).cancelled == w.cancelled
  {
  }

  lemma EndingInOrder(w: Watch, cancelled: bool, chainCancelled: bool, c: Case)
    requires InOrder(w, cancelled) && (w.selector == Closing || w.selector == Cancelling || w.selector == SelectorDone)
    ensures InOrder(AfterSelector(w, cancelled, chainCancelled, c), cancelled || AfterSelector(w, cancelled, chainCancelled, c).cancelled)
    ensures w.cancelled ==> AfterSelector(w, cancelled, chainCancelled, c).cancelled
  {
  }

  lemma SelectorInOrder(w: Watch, cancelled: bool, chainCancelled: bool, c: Case)
    requires InOrder(w, cancelled) && (w.cancelled ==> cancelled)
    ensures InOrder(AfterSelector(w, cancelled, chainCancelled, c), cancelled || AfterSelector(w, cancelled, chainCancelled, c).cancelled)
    ensures w.cancelled ==> AfterSelector(w, cancelled, chainCancelled, c).cancelled
  {
    hide InOrder, AfterSelector;
    match w.selector
    case Selecting => SelectingInOrder(w, cancelled, chainCancelled, c);
    case Received(_) => ReceivedInOrder(w, cancelled, chainCancelled, c);
    case _ => EndingInOrder(w, cancelled, chainCancelled, c);
  }

  lemma CloseKeeps(s: Machine)
    requires AllInOrder(s) && OnlyCurrent(s)
    ensures AllInOrder(AfterClose(s)) && OnlyCurrent(AfterClose(s)) && |AfterClose(s).watches| == |s.watches|
  {
    var s' := AfterClose(s);
    forall i | 0 <= i < |s'.watches|
      ensures InOrder(s'.watches[i], Cancelled(s', i))
    {
      assert InOrder(s.watches[i], Cancelled(s, i));
    }
  }

  lemma SelectorKeeps(s: Machine, i: nat, c: Case)
    requires AllInOrder(s) && OnlyCurrent(s) && i < |s.watches|
    ensures var s' := s.(watches := s.watches[i := AfterSelector(s.watches[i], Cancelled(s, i), s.chainCancelled, c)]);
            AllInOrder(s') && OnlyCurrent(s')
  {
    hide InOrder, AfterSelector;
    SelectorInOrder(s.watches[i], Cancelled(s, i), s.chainCancelled, c);
  }

  lemma ChainKeeps(s: Machine)
    requires AllInOrder(s) && OnlyCurrent(s)
    ensures AllInOrder(s.(chainCancelled := true)) && OnlyCurrent(s.(chainCancelled := true))
  {
    forall i | 0 <= i < |s.watches|
      ensures InOrder(s.watches[i], true)
    {
      assert InOrder(s.watches[i], Cancelled(s, i));
    }
    hide InOrder;
  }

  lemma WatchKeeps(s: Machine, i: nat, w: Watch)
    requires AllInOrder(s) && OnlyCurrent(s) && i < |s.watches|
    requires w.cancelled == s.watches[i].cancelled && InOrder(w, Cancelled(s, i))
    ensures AllInOrder(s.(watches := s.watches[i := w])) && OnlyCurrent(s.(watches := s.watches[i := w]))
  {
    hide InOrder;
  }

  lemma PathKeeps(w: Watch, cancelled: bool, gone: bool)
    requires InOrder(w, cancelled)
    ensures InOrder(w.(gone := gone), cancelled)
  {
  }

  lemma StepKeeps(s: Machine, e: Event)
    requires AllInOrder(s) && OnlyCurrent(s)
    ensures AllInOrder(Step(s, e)) && OnlyCurrent(Step(s, e))
  {
    hide InOrder, AfterRequest, AfterClose, AfterWatcher, AfterSelector;
    match e
    case Request(hasInodeURL) => RequestKeeps(s, hasInodeURL);
    case Close => CloseKeeps(s);
    case CancelChain => ChainKeeps(s);
    case Path(i, gone) =>
      if i < |s.watches| {
        PathKeeps(s.watches[i], Cancelled(s, i), gone);
        WatchKeeps(s, i, s.watches[i].(gone := gone));
      }
    case Watcher(i, found) =>
      if i < |s.watches| {
        WatcherInOrder(s.watches[i], Cancelled(s, i), found);
        WatchKeeps(s, i, AfterWatcher(s.watches[i], Cancelled(s, i), found));
      }
    case Selector(i, c) =>
      if i < |s.watches| {
        CloseKeeps(s);
        SelectorKeeps(s, i, c);
        if s.watches[i].selector == Closing { SelectorKeeps(AfterClose(s), i, c); }
      }
  }

  lemma RequestKeeps(s: Machine, hasInodeURL: bool)
    requires AllInOrder(s) && OnlyCurrent(s)
    ensures AllInOrder(AfterRequest(s, hasInodeURL)) && OnlyCurrent(AfterRequest(s, hasInodeURL))
  {
    assert InOrder(NewWatch(hasInodeURL), s.chainCancelled);
    hide InOrder;
  }

  lemma SuppliedOnce(s: Machine, e: Event)
    requires s.supplied <= 1
    ensures Step(s, e).supplied <= 1
  {
    hide AfterWatcher, AfterSelector;
  }

  lemma {:induction false} RunKeeps(events: seq<Event>)
    ensures AllInOrder(Run(events)) && OnlyCurrent(Run(events)) && Run(events).supplied <= 1
  {
    assert AllInOrder(START) && OnlyCurrent(START);
    hide Step, AllInOrder, OnlyCurrent;
    if events != [] {
      RunKeeps(events[..|events| - 1]);
      SuppliedOnce(Run(events[..|events| - 1]), events[|events| - 1]);
      StepKeeps(Run(events[..|events| - 1]), events[|events| - 1]);
    }
  }

  /** A connection never has two watches that are not cancelled. */
  lemma AtMostOneWatch(events: seq<Event>, i: nat, j: nat)
    requires i < |Run(events).watches| && j < |Run(events).watches|
    requires !Run(events).watches[i].cancelled && !Run(events).watches[j].cancelled
    ensures i == j
  {
    RunKeeps(events);
  }

  /** How one step may change what a watch has seen and asked for. */
  predicate History(w: Watch, w': Watch, cancelled: bool) {
    && (w'.seenGone && !w.seenGone ==> w.gone)
    && (w'.closes != w.closes ==> w.seenGone && !cancelled && w'.closes == w.closes + 1)
  }

  lemma WatcherHistory(w: Watch, cancelled: bool, found: bool)
    ensures History(w, AfterWatcher(w, cancelled, found), cancelled)
  {
  }

  lemma SelectorHistory(w: Watch, cancelled: bool, chainCancelled: bool, c: Case)
    requires w.selector == Received(true) ==> w.seenGone || cancelled
    ensures History(w, AfterSelector(w, cancelled, chainCancelled, c), cancelled)
  {
    hide Ready;
  }

  lemma CloseHistory(s: Machine, i: nat)
    requires i < |s.watches|
    ensures |AfterClose(s).watches| == |s.watches|
    ensures AfterClose(s).watches[i] == s.watches[i] || AfterClose(s).watches[i] == s.watches[i].(cancelled := true)
  {
  }

  lemma ClosingHistory(w: Watch, cancelled: bool, chainCancelled: bool, c: Case)
    requires w.selector == Closing
    ensures AfterSelector(w, cancelled, chainCancelled, c) == w.(selector := Cancelling)
  {
  }

  lemma StepHistory(s: Machine, e: Event, i: nat)
    requires AllInOrder(s) && i < |s.watches|
    ensures i < |Step(s, e).watches| && History(s.watches[i], Step(s, e).watches[i], Cancelled(s, i))
  {
    assert InOrder(s.watches[i], Cancelled(s, i));
    hide Step, History;
    match e
    case Watcher(j, found) => WatcherStepHistory(s, j, found, i);
    case Selector(j, c) => SelectorStepHistory(s, j, c, i);
    case _ => OtherHistory(s, e, i);
  }

  lemma WatcherStepHistory(s: Machine, j: nat, found: bool, i: nat)
    requires i < |s.watches|
    ensures i < |Step(s, Watcher(j, found)).watches|
    ensures History(s.watches[i], Step(s, Watcher(j, found)).watches[i], Cancelled(s, i))
  {
    WatcherHistory(s.watches[i], Cancelled(s, i), found);
    hide AfterWatcher;
  }

  lemma OtherHistory(s: Machine, e: Event, i: nat)
    requires i < |s.watches| && !e.Watcher? && !e.Selector?
    ensures i < |Step(s, e).watches| && History(s.watches[i], Step(s, e).watches[i], Cancelled(s, i))
  {
    CloseHistory(s, i);
    hide AfterClose;
  }

  lemma SelectorStepHistory(s: Machine, j: nat, c: Case, i: nat)
    requires i < |s.watches| && (s.watches[i].selector == Received(true) ==> s.watches[i].seenGone || Cancelled(s, i))
    ensures i < |Step(s, Selector(j, c)).watches|
    ensures History(s.watches[i], Step(s, Selector(j, c)).watches[i], Cancelled(s, i))
  {
    var w := s.watches[i];
    hide AfterSelector, AfterClose;
    CloseHistory(s, i);
    SelectorHistory(w, Cancelled(s, i), s.chainCancelled, c);
    if j == i && w.selector == Closing {
      var s1 := AfterClose(s);
      ClosingHistory(s1.watches[i], Cancelled(s1, i), s1.chainCancelled, c);
    }
  }

  lemma NewWatchHistory(s: Machine, e: Event, i: nat)
    requires |s.watches| <= i < |Step(s, e).watches|
    ensures !Step(s, e).watches[i].seenGone && Step(s, e).watches[i].closes == 0
  {
    hide AfterWatcher, AfterSelector;
  }

  /** What a watcher has seen missing was missing at some time before. */
  lemma {:induction false} SeenWasGone(events: seq<Event>, i: nat)
    requires i < |Run(events).watches| && Run(events).watches[i].seenGone
    ensures exists k :: 0 <= k < |events| && i < |Run(events[..k]).watches| && Run(events[..k]).watches[i].gone
  {
    hide Step;
    if events == [] { return; }
    var last := |events| - 1;
    var s := Run(events[..last]);
    RunKeeps(events[..last]);
    if i >= |s.watches| { NewWatchHistory(s, events[last], i); } else { StepHistory(s, events[last], i); }
    if i < |s.watches| && s.watches[i].seenGone {
      SeenWasGone(events[..last], i);
      var k :| 0 <= k < last && i < |Run(events[..last][..k]).watches| && Run(events[..last][..k]).watches[i].gone;
      assert events[..last][..k] == events[..k];
    }
  }

  /** Under every interleaving a watch asks for a close at most once, only after its process's path was missing, and at
      the moment it decides to, it is not cancelled. */
  lemma ClosesOnlyAfterGone(events: seq<Event>, i: nat)
    requires i < |Run(events).watches|
    ensures Run(events).watches[i].closes <= 1
    ensures Run(events).watches[i].closes == 1 ==>
            exists k :: 0 <= k < |events| && i < |Run(events[..k]).watches| && Run(events[..k]).watches[i].gone
    ensures forall e :: i < |Step(Run(events), e).watches| && Step(Run(events), e).watches[i].closes > Run(events).watches[i].closes ==>
              !Cancelled(Run(events), i) && Run(events).watches[i].seenGone
  {
    hide Step, Run;
    RunKeeps(events);
    assert InOrder(Run(events).watches[i], Cancelled(Run(events), i));
    if Run(events).watches[i].seenGone { SeenWasGone(events, i); }
    forall e | i < |Step(Run(events), e).watches|
      ensures Step(Run(events), e).watches[i].closes > Run(events).watches[i].closes ==>
              !Cancelled(Run(events), i) && Run(events).watches[i].seenGone
    {
      StepHistory(Run(events), e, i);
    }
  }

  /** A close that takes effect closes the connection of its own watch, not of a later one. */
  lemma CloseIsOwn(events: seq<Event>, i: nat, c: Case)
    requires i < |Run(events).watches| && Run(events).watches[i].selector == Closing
    ensures var s, s' := Run(events), Step(Run(events), Selector(i, c));
            if Cancelled(s, i) then s'.current == s.current else s.current == Some(i) && s'.current == None
    ensures forall j :: 0 <= j < |Run(events).watches| && j != i ==> Step(Run(events), Selector(i, c)).watches[j] == Run(events).watches[j]
  {
    RunKeeps(events);
  }

  /** The watcher's send never blocks. */
  lemma SendNeverBlocks(events: seq<Event>, i: nat, found: bool)
    requires i < |Run(events).watches| && Run(events).watches[i].watcher == Sending
    ensures Step(Run(events), Watcher(i, found)).watches[i].watcher == Shutting
  {
    hide Run;
    RunKeeps(events);
    assert InOrder(Run(events).watches[i], Cancelled(Run(events), i));
  }

  // ---- No goroutine is left behind ----

  function WatcherRank(pc: WatcherPc): nat {
    match pc
    case Resolving => 6
    case Statting => 5
    case Sleeping => 4
    case Checking => 3
    case Sending => 2
    case Shutting => 1
    case WatcherDone => 0
  }

  function SelectorRank(pc: SelectorPc): nat {
    match pc
    case Selecting => 4
    case Received(_) => 3
    case Closing => 2
    case Cancelling => 1
    case SelectorDone => 0
  }

  lemma WatcherDescends(w: Watch, found: bool)
    requires InOrder(w, true) && w.watcher != WatcherDone
    ensures WatcherRank(AfterWatcher(w, true, found).watcher) < WatcherRank(w.watcher)
  {
  }

  lemma SelectorDescends(w: Watch, cancelled: bool, chainCancelled: bool, c: Case)
    requires w.selector != SelectorDone && (w.selector == Selecting ==> Ready(w, cancelled, chainCancelled, c))
    ensures SelectorRank(AfterSelector(w, cancelled, chainCancelled, c).selector) < SelectorRank(w.selector)
  {
  }

  /** Once a watch is cancelled every step of its goroutines takes them nearer to their end, and until then each of them
      can make one: the select has a case that is ready. */
  lemma CancelledWatchEnds(events: seq<Event>, i: nat, found: bool, c: Case)
    requires i < |Run(events).watches| && Cancelled(Run(events), i)
    ensures var w, w' := Run(events).watches[i], Step(Run(events), Watcher(i, found)).watches[i];
            w.watcher != WatcherDone ==> WatcherRank(w'.watcher) < WatcherRank(w.watcher)
    ensures Ready(Run(events).watches[i], true, Run(events).chainCancelled, OnCancel)
    ensures Ready(Run(events).watches[i], true, Run(events).chainCancelled, OnChain) <==> Run(events).chainCancelled
    ensures var s := Run(events);
            var w, w' := s.watches[i], Step(s, Selector(i, c)).watches[i];
            w.selector != SelectorDone && (w.selector == Selecting ==> Ready(w, true, s.chainCancelled, c)) ==>
              SelectorRank(w'.selector) < SelectorRank(w.selector)
  {
    hide Run, InOrder, AfterWatcher, AfterSelector, WatcherRank, SelectorRank, Ready, AfterClose;
    RunKeeps(events);
    var s := Run(events);
    assert InOrder(s.watches[i], Cancelled(s, i));
    if s.watches[i].watcher != WatcherDone { WatcherDescends(s.watches[i], found); }
    if s.watches[i].selector != SelectorDone && (s.watches[i].selector == Selecting ==> Ready(s.watches[i], true, s.chainCancelled, c)) {
      SelectorDescends(s.watches[i], true, s.chainCancelled, c);
    }
    CancelIsReady(s.watches[i], s.chainCancelled);
  }

  lemma CancelIsReady(w: Watch, chainCancelled: bool)
    ensures Ready(w, true, chainCancelled, OnCancel) && (Ready(w, true, chainCancelled, OnChain) <==> chainCancelled)
  {
  }

  /** A selector that has ended has cancelled its watch, so that the watcher ends too. */
  lemma EndedSelectorHasCancelled(events: seq<Event>, i: nat)
    requires i < |Run(events).watches| && Run(events).watches[i].watched && Run(events).watches[i].selector == SelectorDone
    ensures Cancelled(Run(events), i)
  {
    hide Run;
    RunKeeps(events);
    assert InOrder(Run(events).watches[i], Cancelled(Run(events), i));
  }

  // ---- A missing path is acted on ----

  /** The steps a watcher that finds its path missing, and a selector, have left up to the request for a close. */
  function StepsLeft(w: Watch): nat {
    (match w.watcher
     case Resolving => 5
     case Sleeping => 5
     case Checking => 4
     case Statting => 3
     case Sending => 2
     case Shutting => 1
     case WatcherDone => 0) +
    (match w.selector
     case Selecting => 2
     case Received(_) => 1
     case _ => 0)
  }

  /** The path of a process that was found is missing, and nobody has cancelled the watch. */
  predicate Alert(s: Machine, i: nat) {
    && i < |s.watches| && s.watches[i].watched && !Cancelled(s, i) && s.watches[i].gone
    && (BeforeSend(s.watches[i].watcher) || s.watches[i].seenGone)
  }

  /** The message of a watch that is not cancelled is on its way or has led to a close. */
  predicate OnItsWay(w: Watch) {
    if BeforeSend(w.watcher) then w.selector == Selecting && (w.watcher == Sending ==> w.seenGone) && (w.watcher == Resolving ==> !w.seenGone)
    else w.seenGone ==> (w.selector == Selecting && w.buffer == 1) || w.selector == Received(true) || w.closes == 1
  }

  ghost predicate AllOnTheirWay(s: Machine) {
    forall i :: 0 <= i < |s.watches| && s.watches[i].watched && !Cancelled(s, i) ==> OnItsWay(s.watches[i])
  }

  /** What a step does to a watch that is not cancelled by then. */
  predicate OwnStep(w: Watch, w': Watch, e: Event, i: nat) {
    if e.Watcher? && e.i == i then w' == AfterWatcher(w, false, e.found)
    else if e.Selector? && e.i == i then w.selector != Closing && w' == AfterSelector(w, false, false, e.c)
    else w' == w.(gone := w'.gone)
  }

  lemma StepIsOwn(s: Machine, e: Event, i: nat)
    requires OnlyCurrent(s) && i < |s.watches| && i < |Step(s, e).watches| && !Cancelled(Step(s, e), i)
    ensures !Cancelled(s, i) && OwnStep(s.watches[i], Step(s, e).watches[i], e, i)
  {
    hide AfterWatcher, AfterSelector;
    WatcherKeepsCancelled(s, e);
    if e.Selector? && e.i < |s.watches| { SelectorIsOwn(s, e.i, e.c, i); }
  }

  lemma WatcherKeepsCancelled(s: Machine, e: Event)
    ensures e.Watcher? && e.i < |s.watches| ==>
            AfterWatcher(s.watches[e.i], Cancelled(s, e.i), e.found).cancelled == s.watches[e.i].cancelled
  {
  }

  lemma SelectorIsOwn(s: Machine, j: nat, c: Case, i: nat)
    requires OnlyCurrent(s) && i < |s.watches| && j < |s.watches|
    requires i < |Step(s, Selector(j, c)).watches| && !Cancelled(Step(s, Selector(j, c)), i)
    ensures !Cancelled(s, i) && OwnStep(s.watches[i], Step(s, Selector(j, c)).watches[i], Selector(j, c), i)
  {
    SelectorKeepsCancelled(s.watches[j], Cancelled(s, j), s.chainCancelled, c);
    SelectorKeepsCancelled(s.watches[j].(cancelled := true), true, s.chainCancelled, c);
    hide AfterSelector;
  }

  lemma SelectorKeepsCancelled(w: Watch, cancelled: bool, chainCancelled: bool, c: Case)
    ensures w.cancelled ==> AfterSelector(w, cancelled, chainCancelled, c).cancelled
  {
  }

  lemma OwnStepOnItsWay(w: Watch, w': Watch, e: Event, i: nat)
    requires InOrder(w, false) && OnItsWay(w) && OwnStep(w, w', e, i) && !w'.cancelled
    ensures OnItsWay(w')
  {
    hide AfterWatcher, AfterSelector, OnItsWay, InOrder;
    if e.Watcher? && e.i == i {
      WatcherOnItsWay(w, e.found);
    } else if e.Selector? && e.i == i {
      SelectorOnItsWay(w, e.c);
    } else {
      PathOnItsWay(w, w'.gone);
    }
  }

  lemma WatcherOnItsWay(w: Watch, found: bool)
    requires InOrder(w, false) && OnItsWay(w)
    ensures OnItsWay(AfterWatcher(w, false, found))
  {
  }

  lemma PathOnItsWay(w: Watch, gone: bool)
    requires OnItsWay(w)
    ensures OnItsWay(w.(gone := gone))
  {
  }

  lemma SelectorOnItsWay(w: Watch, c: Case)
    requires InOrder(w, false) && OnItsWay(w) && w.selector != Closing && !AfterSelector(w, false, false, c).cancelled
    ensures OnItsWay(AfterSelector(w, false, false, c))
  {
    var w' := AfterSelector(w, false, false, c);
    if w.selector == Selecting {
      assert Ready(w, false, false, c) ==> c == OnDelete;
      assert BeforeSend(w.watcher) ==> w' == w;
    } else if w.selector == Received(true) {
      assert w'.closes == 1;
    }
  }

  lemma StepOnTheirWay(s: Machine, e: Event)
    requires AllInOrder(s) && OnlyCurrent(s) && AllOnTheirWay(s)
    ensures AllOnTheirWay(Step(s, e))
  {
    hide Step, InOrder, OnItsWay, OwnStep;
    var s' := Step(s, e);
    forall i | 0 <= i < |s'.watches| && s'.watches[i].watched && !Cancelled(s', i)
      ensures OnItsWay(s'.watches[i])
    {
      if i < |s.watches| {
        StepIsOwn(s, e, i);
        assert InOrder(s.watches[i], Cancelled(s, i));
        SameWatched(s.watches[i], s'.watches[i], e, i);
        OwnStepOnItsWay(s.watches[i], s'.watches[i], e, i);
      } else {
        NewOnItsWay(s, e, i);
      }
    }
  }

  lemma SameWatched(w: Watch, w': Watch, e: Event, i: nat)
    requires OwnStep(w, w', e, i)
    ensures w'.watched == w.watched
  {
    if e.Selector? && e.i == i { hide Ready; }
  }

  lemma NewOnItsWay(s: Machine, e: Event, i: nat)
    requires |s.watches| <= i < |Step(s, e).watches| && Step(s, e).watches[i].watched
    ensures OnItsWay(Step(s, e).watches[i])
  {
    hide AfterWatcher, AfterSelector;
  }

  lemma {:induction false} RunOnTheirWay(events: seq<Event>)
    ensures AllInOrder(Run(events)) && OnlyCurrent(Run(events)) && AllOnTheirWay(Run(events))
  {
    assert AllOnTheirWay(START);
    hide Step, AllInOrder, OnlyCurrent, AllOnTheirWay;
    RunKeeps(events);
    if events != [] {
      RunOnTheirWay(events[..|events| - 1]);
      StepOnTheirWay(Run(events[..|events| - 1]), events[|events| - 1]);
    }
  }

  /** The watch's own goroutines. */
  predicate OfWatch(e: Event, i: nat) {
    (e.Watcher? || e.Selector?) && e.i == i
  }

  /** Whether the event is a step of the watch's goroutines that takes effect. */
  predicate Moves(s: Machine, e: Event, i: nat) {
    i < |s.watches| && OfWatch(e, i) && i < |Step(s, e).watches| && Step(s, e).watches[i] != s.watches[i]
  }

  lemma OwnStepDescends(w: Watch, w': Watch, e: Event, i: nat)
    requires OwnStep(w, w', e, i) && !w'.cancelled && w.gone && (BeforeSend(w'.watcher) || w'.seenGone)
    requires InOrder(w, false) && OnItsWay(w)
    ensures StepsLeft(w') + (if OfWatch(e, i) && w' != w then 1 else 0) <= StepsLeft(w)
  {
    hide AfterWatcher, AfterSelector, OnItsWay, InOrder, StepsLeft;
    if e.Watcher? && e.i == i {
      WatcherStepsLeft(w, e.found);
    } else if e.Selector? && e.i == i {
      SelectorStepsLeft(w, e.c);
    } else {
      PathStepsLeft(w, w'.gone);
    }
  }

  lemma WatcherStepsLeft(w: Watch, found: bool)
    requires InOrder(w, false) && OnItsWay(w) && w.gone
    ensures var w' := AfterWatcher(w, false, found);
            BeforeSend(w'.watcher) || w'.seenGone ==> StepsLeft(w') + (if w' != w then 1 else 0) <= StepsLeft(w)
  {
  }

  lemma SelectorStepsLeft(w: Watch, c: Case)
    requires w.selector != Closing && !AfterSelector(w, false, false, c).cancelled
    ensures var w' := AfterSelector(w, false, false, c);
            StepsLeft(w') + (if w' != w then 1 else 0) <= StepsLeft(w)
  {
    hide Ready;
  }

  lemma PathStepsLeft(w: Watch, gone: bool)
    ensures StepsLeft(w.(gone := gone)) == StepsLeft(w)
  {
  }

  /** The steps of the watch's goroutines in a run. */
  function Moved(events: seq<Event>, more: seq<Event>, i: nat): nat {
    if more == [] then 0
    else
      var last := |more| - 1;
      Moved(events, more[..last], i) + if Moves(Run(events + more[..last]), more[last], i) then 1 else 0
  }

  /** While the path of a process stays missing and nobody cancels the watch, each step of its two goroutines is one of
      the few they have left, and as long as no close has been asked for one of them can make a step: whatever else
      happens in between, after all of them the close has been asked for. */
  lemma {:induction false} MissingIsClosed(events: seq<Event>, more: seq<Event>, i: nat)
    requires forall k :: 0 <= k <= |more| ==> Alert(Run(events + more[..k]), i)
    ensures i < |Run(events).watches| && i < |Run(events + more).watches|
    ensures Moved(events, more, i) + StepsLeft(Run(events + more).watches[i]) <= StepsLeft(Run(events).watches[i]) <= 7
    ensures Run(events + more).watches[i].closes == 0 ==>
            Moves(Run(events + more), Watcher(i, true), i) || Moves(Run(events + more), Selector(i, OnDelete), i)
    ensures StepsLeft(Run(events + more).watches[i]) == 0 ==> Run(events + more).watches[i].closes == 1
    decreases |more|
  {
    hide Step, Run, Alert, Moves, StepsLeft;
    assert more[..|more|] == more && events + more[..0] == events;
    assert Alert(Run(events + more), i);
    AlertMoves(events + more, i);
    if more == [] {
      assert events + more == events;
    } else {
      var last := |more| - 1;
      AlertBefore(events, more, i, last);
      MissingIsClosed(events, more[..last], i);
      assert events + more == (events + more[..last]) + [more[last]];
      AlertDescends(events + more[..last], more[last], i);
    }
  }

  lemma AlertBefore(events: seq<Event>, more: seq<Event>, i: nat, n: nat)
    requires n <= |more| && forall k :: 0 <= k <= |more| ==> Alert(Run(events + more[..k]), i)
    ensures forall k :: 0 <= k <= n ==> Alert(Run(events + more[..n][..k]), i)
    ensures Alert(Run(events + more[..n]), i)
  {
    hide Run, Alert;
    forall k | 0 <= k <= n
      ensures Alert(Run(events + more[..n][..k]), i)
    {
      assert more[..n][..k] == more[..k];
    }
  }

  lemma AlertDescends(events: seq<Event>, e: Event, i: nat)
    requires Alert(Run(events), i) && Alert(Run(events + [e]), i)
    ensures StepsLeft(Run(events + [e]).watches[i]) + (if Moves(Run(events), e, i) then 1 else 0) <= StepsLeft(Run(events).watches[i])
  {
    assert (events + [e])[..|events|] == events && (events + [e])[|events|] == e;
    assert Run(events + [e]) == Step(Run(events), e);
    hide Run, Step, StepsLeft, OwnStep, InOrder, OnItsWay;
    RunOnTheirWay(events);
    var s := Run(events);
    assert InOrder(s.watches[i], Cancelled(s, i));
    StepIsOwn(s, e, i);
    OwnStepDescends(s.watches[i], Step(s, e).watches[i], e, i);
  }

  lemma AlertMoves(events: seq<Event>, i: nat)
    requires Alert(Run(events), i)
    ensures i < |Run(events).watches| && StepsLeft(Run(events).watches[i]) <= 7
    ensures Run(events).watches[i].closes == 0 ==>
            Moves(Run(events), Watcher(i, true), i) || Moves(Run(events), Selector(i, OnDelete), i)
    ensures StepsLeft(Run(events).watches[i]) == 0 ==> Run(events).watches[i].closes == 1
  {
    RunOnTheirWay(events);
    hide Run;
    var s := Run(events);
    assert InOrder(s.watches[i], Cancelled(s, i)) && OnItsWay(s.watches[i]);
  }

  // ---- From a request on ----

  /** A first request that names a process makes a watch: it is the connection's, it is not cancelled, and both its
      goroutines start. One that names none makes a watch without goroutines, and a request of an open connection makes
      nothing. */
  lemma RequestWatches(s: Machine, hasInodeURL: bool)
    ensures var s', i := Step(s, Request(hasInodeURL)), |s.watches|;
            && s'.chainCancelled == s.chainCancelled && (s.supplied <= 1 ==> s'.supplied == 1)
            && (s.current.Some? ==> s'.watches == s.watches && s'.current == s.current)
            && (s.current.None? ==>
                  && |s'.watches| == i + 1 && s'.watches[..i] == s.watches && s'.current == Some(i)
                  && var w := s'.watches[i];
                     && !w.cancelled && w.buffer == 0 && !w.closed && w.closes == 0 && !w.seenGone
                     && (hasInodeURL ==> w.watched && w.watcher == Resolving && w.selector == Selecting)
                     && (!hasInodeURL ==> !w.watched && w.watcher == WatcherDone && w.selector == SelectorDone))
  {
  }

  lemma WatchesStay(s: Machine, e: Event)
    ensures |Step(s, e).watches| >= |s.watches|
  {
    hide AfterWatcher, AfterSelector;
  }

  /** The process of a watch has been found, as far as it has been looked for. */
  predicate Found(s: Machine, i: nat) {
    i < |s.watches| && s.watches[i].watched && (BeforeSend(s.watches[i].watcher) || s.watches[i].seenGone)
  }

  lemma StaysFound(events: seq<Event>, e: Event, i: nat)
    requires Found(Run(events), i) && e != Watcher(i, false)
    requires i < |Step(Run(events), e).watches| && !Cancelled(Step(Run(events), e), i)
    ensures Found(Step(Run(events), e), i) && !Cancelled(Run(events), i)
  {
    hide Run, Step, OwnStep, InOrder, OnItsWay;
    RunOnTheirWay(events);
    var s := Run(events);
    assert InOrder(s.watches[i], Cancelled(s, i));
    StepIsOwn(s, e, i);
    OwnStepFound(s.watches[i], Step(s, e).watches[i], e, i);
  }

  lemma OwnStepFound(w: Watch, w': Watch, e: Event, i: nat)
    requires OwnStep(w, w', e, i) && e != Watcher(i, false) && OnItsWay(w) && w.watched && (BeforeSend(w.watcher) || w.seenGone)
    ensures w'.watched && (BeforeSend(w'.watcher) || w'.seenGone)
  {
    if e.Selector? && e.i == i { SelectorKeepsWatcher(w, e.c); }
    hide AfterSelector;
  }

  lemma SelectorKeepsWatcher(w: Watch, c: Case)
    ensures var w' := AfterSelector(w, false, false, c);
            w'.watched == w.watched && w'.watcher == w.watcher && w'.seenGone == w.seenGone
  {
    hide Ready;
  }

  lemma RunMore(events: seq<Event>, more: seq<Event>)
    requires more != []
    ensures var last := |more| - 1; Run(events + more) == Step(Run(events + more[..last]), more[last])
  {
    var last := |more| - 1;
    assert (events + more)[..|events + more| - 1] == events + more[..last];
    hide Step;
  }

  /** After a first request that names a process, for as long as nobody cancels the watch, its process is found as long as
      no watcher fails to find it. */
  lemma {:induction false} RequestIsFound(events: seq<Event>, more: seq<Event>)
    requires Run(events).current.None? && Watcher(|Run(events).watches|, false) !in more
    ensures var s, i := Run(events + ([Request(true)] + more)), |Run(events).watches|;
            i < |s.watches| && (!Cancelled(s, i) ==> Found(s, i))
    decreases |more|
  {
    var i, all := |Run(events).watches|, [Request(true)] + more;
    RunMore(events, all);
    if more == [] {
      assert events + all[..0] == events;
      RequestWatches(Run(events), true);
      hide Run;
    } else {
      var last := |more| - 1;
      assert all[..|all| - 1] == [Request(true)] + more[..last];
      hide Run, Step, Found;
      RequestIsFound(events, more[..last]);
      var before := events + ([Request(true)] + more[..last]);
      WatchesStay(Run(before), more[last]);
      if !Cancelled(Step(Run(before), more[last]), i) { UncancelledBefore(before, more[last], i); StaysFound(before, more[last], i); }
    }
  }

  lemma UncancelledBefore(events: seq<Event>, e: Event, i: nat)
    requires i < |Run(events).watches| && i < |Step(Run(events), e).watches| && !Cancelled(Step(Run(events), e), i)
    ensures !Cancelled(Run(events), i)
  {
    hide Run, Step, OwnStep;
    RunKeeps(events);
    StepIsOwn(Run(events), e, i);
  }

  /** So from a first request that names a process on, whatever else happens: once the path has gone missing and while
      nobody cancels the watch, the steps of its goroutines end in a request for a close. */
  lemma MissingClientIsClosed(events: seq<Event>, between: seq<Event>, more: seq<Event>)
    requires Run(events).current.None? && Watcher(|Run(events).watches|, false) !in between + more
    requires forall k :: 0 <= k <= |more| ==>
      MissingUncancelled(Run(events + ([Request(true)] + between) + more[..k]), |Run(events).watches|)
    ensures var start, i := events + ([Request(true)] + between), |Run(events).watches|;
            && i < |Run(start).watches| && i < |Run(start + more).watches|
            && Moved(start, more, i) + StepsLeft(Run(start + more).watches[i]) <= StepsLeft(Run(start).watches[i]) <= 7
            && (Run(start + more).watches[i].closes == 0 ==>
                  Moves(Run(start + more), Watcher(i, true), i) || Moves(Run(start + more), Selector(i, OnDelete), i))
            && (StepsLeft(Run(start + more).watches[i]) == 0 ==> Run(start + more).watches[i].closes == 1)
  {
    var start, i := events + ([Request(true)] + between), |Run(events).watches|;
    hide Run, Step, StepsLeft, Moves, Moved, Found;
    forall k | 0 <= k <= |more|
      ensures Alert(Run(start + more[..k]), i)
    {
      assert start + more[..k] == events + ([Request(true)] + (between + more[..k]));
      RequestIsFound(events, between + more[..k]);
      FoundIsAlert(Run(start + more[..k]), i);
    }
    MissingIsClosed(start, more, i);
  }

  predicate MissingUncancelled(s: Machine, i: nat) {
    i < |s.watches| ==> s.watches[i].gone && !Cancelled(s, i)
  }

  lemma FoundIsAlert(s: Machine, i: nat)
    requires i < |s.watches| && MissingUncancelled(s, i) && (!Cancelled(s, i) ==> Found(s, i))
    ensures Alert(s, i)
  {
  }

  // ---- The program ----

  /** The two calls of the chain element, for one connection. */
  class NetNSMonitorClient {
    var current: Option<nat>
    var supplied: nat
    var chainCancelled: bool
    var watches: seq<Watch>

    ghost function St(): Machine
      reads this
    {
      Machine(current, supplied, chainCancelled, watches)
    }

    constructor ()
      ensures St() == START
    {
      current, supplied, chainCancelled, watches := None, 0, false, [];
    }

    method Request(hasInodeURL: bool, nextOk: bool) returns (ok: bool)
      modifies this
      ensures ok == nextOk && St() == if nextOk then AfterRequest(old(St()), hasInodeURL) else old(St())
    {
      if !nextOk { return false; }
      if supplied == 0 { supplied := 1; }
      if current.None? {
        current := Some(|watches|);
        watches := watches + [NewWatch(hasInodeURL)];
      }
      return true;
    }

    method Close()
      requires OnlyCurrent(St())
      modifies this
      ensures St() == AfterClose(old(St())) && current == None
    {
      if current.Some? {
        var i := current.value;
        current := None;
        watches := watches[i := watches[i].(cancelled := true)];
      }
    }
  }
}
