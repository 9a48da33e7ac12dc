/** The event loop of a channel: `RtChannelBase` watches a set of descriptors, and each pass serves
    the events whose descriptor is ready. Adding and removing events waits for the next pass. */
module EventLoops {
  import opened RtEvents

  // ----- The events of a channel, in the order of their descriptors -----

  lemma {:induction false} LeastExists(s: set<int>) returns (m: int)
    requires s != {}
    ensures m in s && forall x :: x in s ==> m <= x
    decreases |s|
  {
    assert exists x :: x in s by {
      assert (forall x :: x !in s) ==> s == {};
    }
    var x :| x in s;
    m := x;
    if s != {x} {
      var n := LeastExists(s - {x});
      m := if x < n then x else n;
      assert forall y :: y in s ==> y == x || y in s - {x};
    }
  }

  function Least(s: set<int>): (m: int)
    requires s != {}
    ensures m in s && forall x :: x in s ==> m <= x
  {
    assert exists m :: m in s && forall x :: x in s ==> m <= x by {
      var m := LeastExists(s);
    }
    var m :| m in s && forall x :: x in s ==> m <= x;
    m
  }

  /** The order in which the map of events is walked. */
  function Ascending(s: set<int>): seq<int>
    decreases |s|
  {
    if s == {} then [] else [Least(s)] + Ascending(s - {Least(s)})
  }

  ghost predicate Distinct(fds: seq<int>) {
    forall i, j :: 0 <= i < j < |fds| ==> fds[i] != fds[j]
  }

  lemma {:induction false} AscendingVisits(s: set<int>)
    ensures forall x :: x in Ascending(s) <==> x in s
    ensures Distinct(Ascending(s))
    decreases |s|
  {
    if s != {} {
      AscendingVisits(s - {Least(s)});
    }
  }

  // ----- Deferred additions and removals -----

  function Fds(es: seq<Event>): (fds: set<int>) {
    set e | e in es :: e.fd
  }

  function Elements(s: seq<int>): set<int> {
    set x | x in s
  }

  function Added(events: map<int, Event>, news: seq<Event>): map<int, Event>
    decreases news
  {
    if news == [] then events else Added(events[news[0].fd := news[0]], news[1..])
  }

  lemma {:induction false} AddedSnoc(events: map<int, Event>, news: seq<Event>, e: Event)
    ensures Added(events, news + [e]) == Added(events, news)[e.fd := e]
    decreases news
  {
    if news == [] {
      assert Added(events[e.fd := e], []) == events[e.fd := e];
    } else {
      assert (news + [e])[1..] == news[1..] + [e];
      AddedSnoc(events[news[0].fd := news[0]], news[1..], e);
    }
  }

  /** Every new event gets in, unless a later one with its descriptor replaces it, although both were
      accepted: only events already watched are compared on acceptance. */
  lemma {:induction false} AddedLast(events: map<int, Event>, news: seq<Event>, fd: int)
    ensures fd in Added(events, news) <==> fd in events || exists k :: 0 <= k < |news| && news[k].fd == fd
    ensures (forall k :: 0 <= k < |news| ==> news[k].fd != fd) && fd in events ==> Added(events, news)[fd] == events[fd]
    ensures forall k | 0 <= k < |news| && news[k].fd == fd && (forall l :: k < l < |news| ==> news[l].fd != fd) ::
              fd in Added(events, news) && Added(events, news)[fd] == news[k]
  {
    if news != [] {
      var n := |news| - 1;
      var init := news[..n];
      assert news == init + [news[n]];
      AddedLast(events, init, fd);
      AddedSnoc(events, init, news[n]);
      assert forall k :: 0 <= k < n ==> init[k] == news[k];
    }
  }

  lemma {:induction false} AddedKeys(events: map<int, Event>, news: seq<Event>)
    ensures Added(events, news).Keys == events.Keys + Fds(news)
  {
    forall fd
      ensures fd in Added(events, news) <==> fd in events.Keys + Fds(news)
    {
      AddedLast(events, news, fd);
      assert fd in Fds(news) <==> exists k :: 0 <= k < |news| && news[k].fd == fd;
    }
  }

  /** Each event is filed under its own descriptor, and no descriptor is the loop's own pipe. */
  ghost predicate Filed(events: map<int, Event>, breakFd: int) {
    forall fd :: fd in events ==> events[fd].fd == fd && 0 <= fd && fd != breakFd
  }

  ghost predicate Fileable(es: seq<Event>, breakFd: int) {
    forall e :: e in es ==> 0 <= e.fd && e.fd != breakFd
  }

  function MaxFd(max: int, news: seq<Event>): int
    decreases news
  {
    if news == [] then max else MaxFd(if news[0].fd > max then news[0].fd else max, news[1..])
  }

  lemma {:induction false} MaxFdBounds(max: int, news: seq<Event>)
    ensures max <= MaxFd(max, news)
    ensures forall e :: e in news ==> e.fd <= MaxFd(max, news)
    decreases news
  {
    if news != [] {
      MaxFdBounds(if news[0].fd > max then news[0].fd else max, news[1..]);
    }
  }

  /** `updateEvents` on the events. */
  function Updated(events: map<int, Event>, news: seq<Event>, removed: seq<int>): map<int, Event> {
    Added(events, news) - Elements(removed)
  }

  // ----- One scan over the events after select -----

  datatype Outcome = Done | Stopped | SignalFailed

  /** What a pass finds: the ready descriptors and those whose event cannot be handled. */
  datatype Findings = Findings(ready: set<int>, failing: set<int>, stopFd: int)

  ghost predicate Known(events: map<int, Event>, fds: seq<int>) {
    forall k :: 0 <= k < |fds| ==> fds[k] in events && events[fds[k]].fd == fds[k]
  }

  lemma {:induction false} AscendingKnown(events: map<int, Event>, breakFd: int)
    requires Filed(events, breakFd)
    ensures Known(events, Ascending(events.Keys)) && Distinct(Ascending(events.Keys))
    ensures breakFd !in Ascending(events.Keys)
  {
    AscendingVisits(events.Keys);
  }

  /** The scan without its early exit: every event is looked at. The events handled are returned. */
  function FullScan(events: map<int, Event>, fds: seq<int>, f: Findings): (Outcome, seq<Event>)
    requires Known(events, fds)
  {
    if fds == [] then (Done, [])
    else if fds[0] !in f.ready then FullScan(events, fds[1..], f)
    else if fds[0] in f.failing then
      if events[fds[0]].kind == Signal then (SignalFailed, []) else FullScan(events, fds[1..], f)
    else if fds[0] == f.stopFd then (Stopped, [events[fds[0]]])
    else Before([events[fds[0]]], FullScan(events, fds[1..], f))
  }

  function Before(acc: seq<Event>, scan: (Outcome, seq<Event>)): (Outcome, seq<Event>) {
    (scan.0, acc + scan.1)
  }

  /** The scan from position `n`, after `handled`. */
  function ScanFrom(events: map<int, Event>, fds: seq<int>, n: nat, f: Findings, handled: seq<Event>)
    : (Outcome, seq<Event>)
    requires Known(events, fds) && n <= |fds|
  {
    Before(handled, FullScan(events, fds[n..], f))
  }

  lemma {:induction false} ScanNext(events: map<int, Event>, fds: seq<int>, n: nat, f: Findings, handled: seq<Event>)
    requires Known(events, fds) && n < |fds|
    ensures ScanFrom(events, fds, n, f, handled) ==
      if fds[n] !in f.ready then ScanFrom(events, fds, n + 1, f, handled)
      else if fds[n] in f.failing then
        if events[fds[n]].kind == Signal then (SignalFailed, handled) else ScanFrom(events, fds, n + 1, f, handled)
      else if fds[n] == f.stopFd then (Stopped, handled + [events[fds[n]]])
      else ScanFrom(events, fds, n + 1, f, handled + [events[fds[n]]])
  {
    assert fds[n..][0] == fds[n] && fds[n..][1..] == fds[n + 1..];
    var e, rest := events[fds[n]], FullScan(events, fds[n + 1..], f);
    assert handled + [] == handled;
    assert handled + ([e] + rest.1) == handled + [e] + rest.1;
  }

  lemma {:induction false} ScanBegin(events: map<int, Event>, fds: seq<int>, f: Findings)
    requires Known(events, fds)
    ensures ScanFrom(events, fds, 0, f, []) == FullScan(events, fds, f)
  {
    assert fds[0..] == fds;
    assert [] + FullScan(events, fds, f).1 == FullScan(events, fds, f).1;
  }

  lemma {:induction false} ScanRest(events: map<int, Event>, fds: seq<int>, n: nat, f: Findings, handled: seq<Event>)
    requires Known(events, fds) && n <= |fds| && forall k :: n <= k < |fds| ==> fds[k] !in f.ready
    ensures ScanFrom(events, fds, n, f, handled) == (Done, handled)
  {
    NothingReady(events, fds[n..], f);
    assert handled + [] == handled;
  }

  lemma {:induction false} NothingReady(events: map<int, Event>, fds: seq<int>, f: Findings)
    requires Known(events, fds) && forall k :: 0 <= k < |fds| ==> fds[k] !in f.ready
    ensures FullScan(events, fds, f) == (Done, [])
  {
    if fds != [] {
      NothingReady(events, fds[1..], f);
    }
  }

  lemma {:induction false} SubsetOfSize(a: set<int>, b: set<int>)
    requires a <= b && |a| >= |b|
    ensures a == b
  {
    assert |b - a| == |b| - |a|;
  }

  /** How many of the first `n` descriptors are ready. */
  ghost function ReadyIn(fds: seq<int>, n: nat, ready: set<int>): nat
    requires n <= |fds|
  {
    if n == 0 then 0 else ReadyIn(fds, n - 1, ready) + Once(fds[n - 1] in ready)
  }

  lemma {:induction false} ElementsNext(fds: seq<int>, n: nat)
    requires n < |fds|
    ensures Elements(fds[..n + 1]) == Elements(fds[..n]) + {fds[n]}
    ensures Distinct(fds) ==> fds[n] !in Elements(fds[..n])
  {
  }

  ghost function ReadySet(fds: seq<int>, n: nat, ready: set<int>): set<int>
    requires n <= |fds|
  {
    if n == 0 then {}
    else if fds[n - 1] in ready then ReadySet(fds, n - 1, ready) + {fds[n - 1]}
    else ReadySet(fds, n - 1, ready)
  }

  lemma {:induction false} ReadySetIs(fds: seq<int>, n: nat, ready: set<int>)
    requires n <= |fds| && Distinct(fds)
    ensures |ReadySet(fds, n, ready)| == ReadyIn(fds, n, ready)
    ensures ReadySet(fds, n, ready) <= ready
    ensures forall x :: x in ReadySet(fds, n, ready) ==> x in fds
    ensures forall k :: n <= k < |fds| ==> fds[k] !in ReadySet(fds, n, ready)
  {
    if n > 0 {
      ReadySetIs(fds, n - 1, ready);
    }
  }

  /** Once as many ready descriptors were seen as there are, no other is ready. */
  lemma {:induction false} EarlyExit(fds: seq<int>, n: nat, ready: set<int>, breakFd: int)
    requires n <= |fds| && Distinct(fds) && breakFd !in fds
    requires Once(breakFd in ready) + ReadyIn(fds, n, ready) >= |ready|
    ensures forall k :: n <= k < |fds| ==> fds[k] !in ready
  {
    ReadySetIs(fds, n, ready);
    var seen := ReadySet(fds, n, ready);
    if breakFd in ready {
      assert breakFd !in seen;
      SubsetOfSize(seen + {breakFd}, ready);
    } else {
      SubsetOfSize(seen, ready);
    }
  }

  /** What ends a scan before its end: the stop event, or a signal that cannot be handled. */
  ghost predicate Ends(e: Event, f: Findings) {
    e.fd in f.ready && (if e.fd in f.failing then e.kind == Signal else e.fd == f.stopFd)
  }

  /** The events to serve: watched, ready, and handled without failure. */
  ghost predicate Due(events: map<int, Event>, e: Event, f: Findings) {
    e.fd in events && events[e.fd] == e && e.fd in f.ready && e.fd !in f.failing
  }

  function Once(b: bool): nat {
    if b then 1 else 0
  }

  /** The scan comes to its end exactly when no event ends it. It has then handled every event that is
      due, once, and no other. */
  lemma {:induction false} FullScanEnds(events: map<int, Event>, fds: seq<int>, f: Findings)
    requires Known(events, fds)
    ensures FullScan(events, fds, f).0 == Done <==> forall k :: 0 <= k < |fds| ==> !Ends(events[fds[k]], f)
  {
    if fds != [] {
      FullScanEnds(events, fds[1..], f);
      assert forall k :: 0 <= k < |fds| - 1 ==> fds[1..][k] == fds[k + 1];
      assert forall k :: 0 < k < |fds| ==> fds[k] == fds[1..][k - 1];
    }
  }

  lemma {:induction false} FullScanServes(events: map<int, Event>, fds: seq<int>, f: Findings, e: Event)
    requires Known(events, fds) && Distinct(fds)
    requires FullScan(events, fds, f).0 == Done
    ensures multiset(FullScan(events, fds, f).1)[e] == Once(e.fd in fds && Due(events, e, f))
  {
    if fds != [] {
      FullScanServes(events, fds[1..], f, e);
      assert fds == [fds[0]] + fds[1..];
      assert fds[0] !in fds[1..];
    }
  }

  // ----- What the block asks for while it processes an event -----

  datatype Request = Add(event: Event) | Remove(fd: int)

  function Reaction(reactions: map<int, seq<Request>>, e: Event): seq<Request> {
    if e.fd in reactions then reactions[e.fd] else []
  }

  /** The waiting additions after the first `n` requests: accepted are those whose descriptor is not
      watched yet. */
  function WithAdditions(news: seq<Event>, watched: set<int>, rs: seq<Request>, n: nat): seq<Event>
    requires n <= |rs|
  {
    if n == 0 then news
    else
      var before := WithAdditions(news, watched, rs, n - 1);
      if rs[n - 1].Add? && rs[n - 1].event.fd !in watched then before + [rs[n - 1].event] else before
  }

  function WithRemovals(removed: seq<int>, rs: seq<Request>, n: nat): seq<int>
    requires n <= |rs|
  {
    if n == 0 then removed
    else
      var before := WithRemovals(removed, rs, n - 1);
      if rs[n - 1].Remove? then before + [rs[n - 1].fd] else before
  }

  lemma {:induction false} WithAdditionsFileable(news: seq<Event>, watched: set<int>, rs: seq<Request>, n: nat,
                                                 breakFd: int)
    requires n <= |rs| && Possible(rs, breakFd)
    ensures Fileable(news, breakFd) ==> Fileable(WithAdditions(news, watched, rs, n), breakFd)
  {
    if n > 0 {
      WithAdditionsFileable(news, watched, rs, n - 1, breakFd);
      assert rs[n - 1] in rs;
    }
  }

  /** The waiting additions and removals after the first `n` events were served. */
  function AddedWhile(news: seq<Event>, watched: set<int>, reactions: map<int, seq<Request>>, order: seq<Event>, n: nat)
    : seq<Event>
    requires n <= |order|
  {
    if n == 0 then news
    else
      var rs := Reaction(reactions, order[n - 1]);
      WithAdditions(AddedWhile(news, watched, reactions, order, n - 1), watched, rs, |rs|)
  }

  function RemovedWhile(removed: seq<int>, reactions: map<int, seq<Request>>, order: seq<Event>, n: nat): seq<int>
    requires n <= |order|
  {
    if n == 0 then removed
    else
      var rs := Reaction(reactions, order[n - 1]);
      WithRemovals(RemovedWhile(removed, reactions, order, n - 1), rs, |rs|)
  }

  /** Descriptors come from the system: none is negative, none is that of an open pipe. */
  ghost predicate Possible(rs: seq<Request>, breakFd: int) {
    forall r :: r in rs && r.Add? ==> 0 <= r.event.fd && r.event.fd != breakFd
  }

  /** The events after the first `n` were served, at the times the clock then shows. */
  function Triggered(events: map<int, Event>, order: seq<Event>, n: nat, clock: nat -> int): map<int, Event>
    requires n <= |order|
  {
    if n == 0 then events
    else Triggered(events, order, n - 1, clock)[order[n - 1].fd := order[n - 1].(triggerTime := clock(n - 1))]
  }

  /** Serving events changes nothing in them but the time of their last trigger. */
  lemma {:induction false} TriggeredKeeps(events: map<int, Event>, order: seq<Event>, n: nat, clock: nat -> int)
    requires n <= |order| && forall e :: e in order ==> e.fd in events && events[e.fd] == e
    ensures Triggered(events, order, n, clock).Keys == events.Keys
    ensures forall fd :: fd in events ==>
      Triggered(events, order, n, clock)[fd] ==
        events[fd].(triggerTime := Triggered(events, order, n, clock)[fd].triggerTime)
  {
    if n > 0 {
      TriggeredKeeps(events, order, n - 1, clock);
      assert order[n - 1] in order;
    }
  }

  /** Every event that is due is served once, and no other is. */
  ghost predicate ServesDue(events: map<int, Event>, order: seq<Event>, f: Findings) {
    forall e: Event :: multiset(order)[e] == Once(Due(events, e, f))
  }

  ghost predicate NothingEnds(events: map<int, Event>, f: Findings) {
    forall fd :: fd in events ==> !Ends(events[fd], f)
  }

  /** What select leaves out is not watched. */
  lemma {:induction false} SameFindings(events: map<int, Event>, order: seq<Event>, f: Findings, ready: set<int>,
                                        breakFd: int)
    requires Filed(events, breakFd) && forall fd :: fd in events ==> (fd in f.ready <==> fd in ready)
    ensures NothingEnds(events, f) <==> NothingEnds(events, f.(ready := ready))
    ensures ServesDue(events, order, f.(ready := ready)) ==> ServesDue(events, order, f)
  {
    forall e: Event
      ensures Due(events, e, f) <==> Due(events, e, f.(ready := ready))
    {
    }
    forall fd | fd in events
      ensures Ends(events[fd], f) <==> Ends(events[fd], f.(ready := ready))
    {
    }
  }

  lemma {:induction false} ScanIsComplete(events: map<int, Event>, f: Findings, breakFd: int)
    requires Filed(events, breakFd) && Known(events, Ascending(events.Keys))
    ensures var scan := FullScan(events, Ascending(events.Keys), f);
      && (scan.0 == Done <==> NothingEnds(events, f))
      && (scan.0 == Done ==> ServesDue(events, scan.1, f))
  {
    var fds := Ascending(events.Keys);
    AscendingVisits(events.Keys);
    FullScanEnds(events, fds, f);
    assert NothingEnds(events, f) <==> forall k :: 0 <= k < |fds| ==> !Ends(events[fds[k]], f);
    if FullScan(events, fds, f).0 == Done {
      forall e: Event
        ensures multiset(FullScan(events, fds, f).1)[e] == Once(Due(events, e, f))
      {
        FullScanServes(events, fds, f, e);
      }
    }
  }

  lemma {:induction false} ServedIsCurrent(events: map<int, Event>, order: seq<Event>, f: Findings)
    requires ServesDue(events, order, f)
    ensures forall e :: e in order ==> e.fd in events && events[e.fd] == e
  {
    forall e | e in order
      ensures Due(events, e, f)
    {
      assert multiset(order)[e] > 0;
    }
  }

  class RtChannelBase {
    const breakFd: int
    const stopFd: int
    var events: map<int, Event>
    var newEvents: seq<Event>
    var removedEvents: seq<int>
    var inputFds: set<int>
    var maxInputFd: int

    /** What is monitored is the pipe that breaks the wait and one descriptor for each event, and the
        bound given to select covers them all. */
    ghost predicate Valid()
      reads this
    {
      && 0 <= breakFd
      && Filed(events, breakFd) && Fileable(newEvents, breakFd)
      && inputFds == events.Keys + {breakFd}
      && forall fd :: fd in inputFds ==> fd <= maxInputFd
    }

    /** `init`: the pipe is monitored at once, the stop signal and the messages of the opposite channel
        from the first pass on. */
    constructor (breakFd: int, stop: Event, opposite: Event)
      requires 0 <= breakFd && 0 <= stop.fd && stop.fd != breakFd && 0 <= opposite.fd && opposite.fd != breakFd
      ensures Valid()
      ensures this.breakFd == breakFd && this.stopFd == stop.fd
      ensures events == map[] && newEvents == [stop, opposite] && removedEvents == []
    {
      this.breakFd := breakFd;
      this.stopFd := stop.fd;
      events := map[];
      newEvents := [stop, opposite];
      removedEvents := [];
      inputFds := {breakFd};
      maxInputFd := breakFd;
    }

    method AddEvent(event: Event) returns (ok: bool)
      requires 0 <= event.fd && event.fd != breakFd
      modifies this`newEvents
      ensures old(Valid()) ==> Valid()
      ensures ok <==> event.fd !in events
      ensures newEvents == if ok then old(newEvents) + [event] else old(newEvents)
    {
      if event.fd in events {
        return false;
      }
      newEvents := newEvents + [event];
      return true;
    }

    method RemoveEvent(fd: int)
      modifies this`removedEvents
      ensures removedEvents == old(removedEvents) + [fd]
    {
      removedEvents := removedEvents + [fd];
    }

    method AddInputFd(fd: int)
      modifies this`inputFds, this`maxInputFd
      ensures inputFds == old(inputFds) + {fd}
      ensures maxInputFd == if fd > old(maxInputFd) then fd else old(maxInputFd)
    {
      if fd > maxInputFd {
        maxInputFd := fd;
      }
      inputFds := inputFds + {fd};
    }

    method UpdateMaxFd()
      modifies this`maxInputFd
      ensures 0 <= maxInputFd && forall fd :: fd in events ==> fd <= maxInputFd
      ensures maxInputFd == 0 || maxInputFd in events
    {
      maxInputFd := 0;
      var left := events.Keys;
      while left != {}
        invariant left <= events.Keys
        invariant 0 <= maxInputFd && forall fd :: fd in events && fd !in left ==> fd <= maxInputFd
        invariant maxInputFd == 0 || maxInputFd in events
        decreases |left|
      {
        var fd := Least(left);
        left := left - {fd};
        if fd > maxInputFd {
          maxInputFd := fd;
        }
      }
    }

    /** The first half of `updateEvents`. */
    method AddNewEvents()
      requires Valid()
      modifies this`events, this`newEvents, this`inputFds, this`maxInputFd
      ensures Valid()
      ensures events == Added(old(events), old(newEvents)) && newEvents == []
      ensures maxInputFd == MaxFd(old(maxInputFd), old(newEvents))
    {
      ghost var max := maxInputFd;
      var n := 0;
      while n < |newEvents|
        invariant n <= |newEvents|
        invariant newEvents == old(newEvents) && Valid()
        invariant Added(old(events), newEvents) == Added(events, newEvents[n..])
        invariant MaxFd(max, newEvents) == MaxFd(maxInputFd, newEvents[n..])
      {
        var e := newEvents[n];
        assert newEvents[n..][0] == e && newEvents[n..][1..] == newEvents[n + 1..];
        AddInputFd(e.fd);
        events := events[e.fd := e];
        n := n + 1;
      }
      newEvents := [];
    }

    /** The second half. The bound is computed while the event is still filed, so it never falls:
        were the event erased first, the bound could fall below the pipe, which no event stands for,
        and nothing would break the wait any more. */
    method EraseRemovedEvents()
      requires Valid()
      modifies this`events, this`removedEvents, this`inputFds, this`maxInputFd
      ensures Valid()
      ensures events == old(events) - Elements(old(removedEvents)) && removedEvents == []
      ensures maxInputFd == old(maxInputFd)
    {
      var n := 0;
      while n < |removedEvents|
        invariant n <= |removedEvents|
        invariant removedEvents == old(removedEvents) && Valid()
        invariant events == old(events) - Elements(removedEvents[..n])
        invariant maxInputFd == old(maxInputFd)
      {
        var fd := removedEvents[n];
        if fd in events {
          inputFds := inputFds - {fd};
          if fd == maxInputFd {
            UpdateMaxFd();
          }
          events := events - {fd};
        }
        ElementsNext(removedEvents, n);
        n := n + 1;
      }
      assert removedEvents[..n] == removedEvents;
      removedEvents := [];
    }

    /** `updateEvents`: a descriptor that was added and removed since the last pass, in whichever
        order, is not watched afterwards. */
    method UpdateEvents()
      requires Valid()
      modifies this`events, this`newEvents, this`removedEvents, this`inputFds, this`maxInputFd
      ensures Valid()
      ensures events == Updated(old(events), old(newEvents), old(removedEvents))
      ensures inputFds == old(events.Keys) + Fds(old(newEvents)) - Elements(old(removedEvents)) + {breakFd}
      ensures newEvents == [] && removedEvents == []
      ensures maxInputFd == MaxFd(old(maxInputFd), old(newEvents))
    {
      AddedKeys(events, newEvents);
      AddNewEvents();
      EraseRemovedEvents();
    }

    /** The call to select: of the descriptors below the bound that are monitored, those that have
        input. A failing call leaves the monitored set as it is. */
    method Select(raised: set<int>, fails: bool) returns (number: int, ready: set<int>)
      ensures fails ==> number == -1 && ready == inputFds
      ensures !fails ==> ready == (set fd | fd in inputFds && fd < maxInputFd + 1 && fd in raised) && number == |ready|
    {
      if fails {
        return -1, inputFds;
      }
      ready := set fd | fd in inputFds && fd < maxInputFd + 1 && fd in raised;
      number := |ready|;
    }

    /** The loop over the events. It stops as soon as it has seen as many ready descriptors as select
        announced, the pipe included, and handles what a full scan would. */
    method Scan(number: int, f: Findings) returns (outcome: Outcome, handled: seq<Event>)
      requires Valid() && f.stopFd == stopFd
      requires number == -1 || (number == |f.ready| && f.ready <= inputFds)
      ensures number == -1 ==> outcome == Done && handled == []
      ensures Known(events, Ascending(events.Keys))
      ensures number >= 0 ==> (outcome, handled) == FullScan(events, Ascending(events.Keys), f)
    {
      outcome, handled := Done, [];
      var count := 0;
      if breakFd in f.ready {
        count := count + 1;
      }
      var fds := Ascending(events.Keys);
      AscendingKnown(events, breakFd);
      ScanBegin(events, fds, f);
      var n := 0;
      while n < |fds|
        invariant n <= |fds| && outcome == Done
        invariant count == Once(breakFd in f.ready) + ReadyIn(fds, n, f.ready)
        invariant number == -1 ==> handled == []
        invariant number >= 0 ==> FullScan(events, fds, f) == ScanFrom(events, fds, n, f, handled)
      {
        if count >= number {
          if number >= 0 {
            EarlyExit(fds, n, f.ready, breakFd);
            ScanRest(events, fds, n, f, handled);
          }
          return;
        }
        var e := events[fds[n]];
        ScanNext(events, fds, n, f, handled);
        if e.fd in f.ready {
          count := count + 1;
          if e.fd in f.failing {
            if e.kind == Signal {
              return SignalFailed, handled;
            }
          } else {
            handled := handled + [e];
            if e.fd == stopFd {
              return Stopped, handled;
            }
          }
        }
        n := n + 1;
      }
      ScanRest(events, fds, n, f, handled);
    }

    /** What the block does while it processes one event. */
    method OnEvent(reaction: seq<Request>)
      requires Possible(reaction, breakFd)
      modifies this`newEvents, this`removedEvents
      ensures Fileable(old(newEvents), breakFd) ==> Fileable(newEvents, breakFd)
      ensures newEvents == WithAdditions(old(newEvents), events.Keys, reaction, |reaction|)
      ensures removedEvents == WithRemovals(old(removedEvents), reaction, |reaction|)
    {
      var n := 0;
      while n < |reaction|
        invariant n <= |reaction|
        invariant newEvents == WithAdditions(old(newEvents), events.Keys, reaction, n)
        invariant removedEvents == WithRemovals(old(removedEvents), reaction, n)
      {
        var r := reaction[n];
        match r {
          case Add(e) => var _ := AddEvent(e);
          case Remove(fd) => RemoveEvent(fd);
        }
        n := n + 1;
      }
      WithAdditionsFileable(old(newEvents), events.Keys, reaction, |reaction|, breakFd);
    }

    /** From select to the end of the scan. */
    method Collect(raised: set<int>, fails: bool, failing: set<int>) returns (outcome: Outcome, handled: seq<Event>)
      requires Valid()
      ensures fails ==> outcome == Done && handled == []
      ensures var f := Findings(raised, failing, stopFd);
        !fails ==> (outcome == Done <==> NothingEnds(events, f)) && (outcome == Done ==> ServesDue(events, handled, f))
    {
      var number, ready := Select(raised, fails);
      var f := Findings(ready, failing, stopFd);
      outcome, handled := Scan(number, f);
      if !fails {
        ScanIsComplete(events, f, breakFd);
        SameFindings(events, handled, Findings(raised, failing, stopFd), ready, breakFd);
      }
    }

    /** One event has its trigger time set and is passed to the block. */
    method Serve(event: Event, now: int, reaction: seq<Request>)
      requires Valid() && Possible(reaction, breakFd) && event.fd in events
      modifies this`events, this`newEvents, this`removedEvents
      ensures Valid() && events.Keys == old(events.Keys)
      ensures events == old(events)[event.fd := event.(triggerTime := now)]
      ensures newEvents == WithAdditions(old(newEvents), old(events.Keys), reaction, |reaction|)
      ensures removedEvents == WithRemovals(old(removedEvents), reaction, |reaction|)
    {
      events := events[event.fd := event.(triggerTime := now)];
      assert events.Keys == old(events.Keys);
      OnEvent(reaction);
    }

    /** The loop that serves the events handled. The map of events keeps its descriptors, so no event
        is destroyed on the way. */
    method Dispatch(order: seq<Event>, clock: nat -> int, reactions: map<int, seq<Request>>)
      requires Valid() && forall fd :: fd in reactions ==> Possible(reactions[fd], breakFd)
      requires forall e :: e in order ==> e.fd in events
      modifies this`events, this`newEvents, this`removedEvents
      ensures Valid() && events.Keys == old(events.Keys)
      ensures events == Triggered(old(events), order, |order|, clock)
      ensures newEvents == AddedWhile(old(newEvents), old(events.Keys), reactions, order, |order|)
      ensures removedEvents == RemovedWhile(old(removedEvents), reactions, order, |order|)
    {
      ghost var watched := events.Keys;
      for n := 0 to |order|
        invariant Valid()
        invariant events.Keys == watched
        invariant events == Triggered(old(events), order, n, clock)
        invariant newEvents == AddedWhile(old(newEvents), watched, reactions, order, n)
        invariant removedEvents == RemovedWhile(old(removedEvents), reactions, order, n)
      {
        assert order[n] in order;
        Serve(order[n], clock(n), Reaction(reactions, order[n]));
      }
    }

    /** One turn of `executeThread`. When nothing ends it and select succeeds, every event that is
        watched, ready and not failing is served once, in the order of the comparison, and what the
        block asked for waits in the two lists. When the stop signal is among the ready events none of
        them is served, not even those handled before it. */
    method Pass(raised: set<int>, fails: bool, failing: set<int>, clock: nat -> int, reactions: map<int, seq<Request>>)
      returns (outcome: Outcome, order: seq<Event>)
      requires Valid() && forall fd :: fd in reactions ==> Possible(reactions[fd], breakFd)
      modifies this`events, this`newEvents, this`removedEvents, this`inputFds, this`maxInputFd
      ensures Valid()
      ensures var watched := Updated(old(events), old(newEvents), old(removedEvents));
        var f := Findings(raised, failing, stopFd);
        && (outcome == Done <==> fails || NothingEnds(watched, f))
        && (outcome == Done && !fails ==> ServesDue(watched, order, f))
        && (outcome == Done && StrictWeakOn(order) ==> Ordered(order) && ByPriority(order))
        && (outcome != Done || fails ==> order == [])
        && events == Triggered(watched, order, |order|, clock)
        && newEvents == AddedWhile([], watched.Keys, reactions, order, |order|)
        && removedEvents == RemovedWhile([], reactions, order, |order|)
    {
      UpdateEvents();
      var handled;
      outcome, handled := Collect(raised, fails, failing);
      order := [];
      if outcome != Done {
        return;
      }
      order := Sort(handled);
      assert forall e :: e in order <==> e in multiset(order);
      assert forall e :: e in order <==> e in handled;
      if !fails {
        ServedIsCurrent(events, handled, Findings(raised, failing, stopFd));
      }
      Dispatch(order, clock, reactions);
    }
  }
}
