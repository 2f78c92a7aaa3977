/** Whole histories of a "memory" list, such as the progress list of a deferred: each listener hears every
    report from the latest one at its addition on, once and in order. */
module ReportHistories {
  import opened Wrappers
  import opened Callbacks
  import opened CallbackHistories

  const REPORTS := Options(false, true, false, false)

  /** What can happen to the list: functions are added and removed, it is fired, a running function
      returns. */
  datatype Event =
    | Joins(fns: seq<nat>)
    | Leaves(fns: seq<nat>)
    | Reports(args: Args)
    | Finishes

  // ----- the plain reading -----

  /** `started` are the reports that have been or are being passed on, `waiting` those that come after them;
      `next` are the listeners who have still to hear the last one started. Listener number s is to hear the
      reports from number `since[s]` on. */
  datatype Round = Round(list: seq<Entry>, next: seq<Entry>, log: seq<Call>, started: seq<Args>,
                         waiting: seq<Args>, running: bool, since: seq<nat>)

  const SILENCE := Round([], [], [], [], [], false, [])

  /** The next listener is called, or the next report started. */
  function Continue(h: Round): Round
    requires h.started != []
    decreases |h.waiting|
  {
    if h.next != [] then
      h.(next := h.next[1..], log := h.log + [Call(h.next[0], h.started[|h.started| - 1])], running := true)
    else if h.waiting == [] then h.(running := false)
    else Continue(h.(started := h.started + [h.waiting[0]], waiting := h.waiting[1..], next := h.list))
  }

  function After(h: Round, e: Event): Round {
    match e
    case Joins(fns) =>
      var more := Entries(fns, |h.since|);
      var since := seq(|fns|, _ => if h.started == [] then 0 else |h.started| - 1);
      var longer := h.(list := h.list + more, since := h.since + since);
      if h.started == [] then longer
      else if h.running then longer.(next := h.next + more)
      else Continue(longer.(next := more))
    case Leaves(fns) => h.(list := WithoutAll(h.list, fns), next := WithoutAll(h.next, fns))
    case Reports(args) =>
      if h.running then h.(waiting := h.waiting + [args])
      else Continue(h.(started := h.started + [args], next := h.list))
    case Finishes => if h.running && h.started != [] then Continue(h) else h
  }

  function Played(events: seq<Event>): Round {
    if events == [] then SILENCE else After(Played(events[..|events| - 1]), events[|events| - 1])
  }

  lemma PlayedSnoc(events: seq<Event>, e: Event)
    ensures Played(events + [e]) == After(Played(events), e)
  {
    assert (events + [e])[..|events|] == events;
  }

  /** The reports of a history. */
  function ReportsIn(events: seq<Event>): seq<Args> {
    if events == [] then []
    else ReportsIn(events[..|events| - 1])
         + (if events[|events| - 1].Reports? then [events[|events| - 1].args] else [])
  }

  // ----- who hears what -----

  /** The arguments of the calls of listener s, in order. */
  function Heard(log: seq<Call>, s: nat): seq<Args> {
    if log == [] then []
    else Heard(log[..|log| - 1], s) + (if log[|log| - 1].entry.serial == s then [log[|log| - 1].args] else [])
  }

  lemma HeardSnoc(log: seq<Call>, call: Call, s: nat)
    ensures Heard(log + [call], s) == Heard(log, s) + (if call.entry.serial == s then [call.args] else [])
  {
    assert (log + [call])[..|log|] == log;
  }

  lemma {:induction false} HeardNothing(log: seq<Call>, s: nat)
    requires forall k :: 0 <= k < |log| ==> log[k].entry.serial != s
    ensures Heard(log, s) == []
  {
    if log != [] { HeardNothing(log[..|log| - 1], s); }
  }

  /** Listener e has heard all it is to hear, but for the last report if it is still to be called. */
  ghost predicate HearsAll(h: Round, e: Entry)
    requires e.serial < |h.since|
  {
    var n := |h.started| - (if e in h.next then 1 else 0);
    h.since[e.serial] <= n && Heard(h.log, e.serial) == h.started[h.since[e.serial]..n]
  }

  ghost predicate InTurn(h: Round) {
    && Ascending(h.list) && (forall e :: e in h.list ==> e.serial < |h.since|)
    && Ascending(h.next) && (forall e :: e in h.next ==> e in h.list)
    && (forall k :: 0 <= k < |h.log| ==> h.log[k].entry.serial < |h.since|)
  }

  ghost predicate RoundOk(h: Round) {
    && InTurn(h)
    && (forall e :: e in h.list ==> HearsAll(h, e))
    && (h.running ==> h.started != [])
    && (!h.running ==> h.next == [] && h.waiting == [])
  }

  lemma SameSerial(es: seq<Entry>, e: Entry, f: Entry)
    requires Ascending(es) && e in es && f in es && e.serial == f.serial
    ensures e == f
  {
    var i :| 0 <= i < |es| && es[i] == e;
    var j :| 0 <= j < |es| && es[j] == f;
  }

  lemma NextOnce(es: seq<Entry>)
    requires Ascending(es) && es != []
    ensures Ascending(es[1..]) && es[0] !in es[1..] && es[0] in es
    ensures forall e :: e in es[1..] <==> e in es && e != es[0]
  {
    assert es == [es[0]] + es[1..];
    forall i | 1 <= i < |es| ensures es[i] != es[0] { assert es[0].serial < es[i].serial; }
  }

  /** Before the next step: everything is in turn, but perhaps nobody is called. */
  ghost predicate Ready(h: Round) {
    InTurn(h) && (forall e :: e in h.list ==> HearsAll(h, e)) && h.started != []
  }

  lemma CallHears(h: Round, e: Entry)
    requires Ascending(h.next) && Ascending(h.list) && h.next != [] && h.next[0] in h.list && h.started != []
    requires e in h.list && e.serial < |h.since| && HearsAll(h, e)
    ensures HearsAll(Continue(h), e)
  {
    hide Ascending, Heard;
    var first := h.next[0];
    NextOnce(h.next);
    HeardSnoc(h.log, Call(first, h.started[|h.started| - 1]), e.serial);
    if e.serial == first.serial { SameSerial(h.list, e, first); }
  }

  lemma CallInTurn(h: Round)
    requires InTurn(h) && h.next != [] && h.started != []
    ensures InTurn(Continue(h))
  {
    NextOnce(h.next);
    assert h.next[0] in h.list;
    hide Ascending;
  }

  lemma CallKeeps(h: Round)
    requires Ready(h) && h.next != []
    ensures RoundOk(Continue(h))
  {
    CallInTurn(h);
    assert Continue(h).list == h.list && Continue(h).running;
    assert h.next[0] in h.next;
    forall e | e in h.list ensures HearsAll(Continue(h), e) { CallHears(h, e); }
    hide InTurn, HearsAll, Continue;
  }

  lemma StartKeeps(h: Round, args: Args, waiting: seq<Args>)
    requires (Ready(h) || RoundOk(h)) && h.next == []
    ensures Ready(h.(started := h.started + [args], waiting := waiting, next := h.list))
  {
    hide Heard, Ascending;
    var g := h.(started := h.started + [args], waiting := waiting, next := h.list);
    forall e | e in g.list ensures HearsAll(g, e) {
      assert HearsAll(h, e);
    }
  }

  lemma {:induction false} ContinueKeeps(h: Round)
    requires Ready(h)
    ensures RoundOk(Continue(h))
    ensures var g := Continue(h);
            g.started + g.waiting == h.started + h.waiting && g.since == h.since && g.list == h.list
    decreases |h.waiting|
  {
    hide Ready, RoundOk;
    if h.next != [] {
      CallKeeps(h);
    } else if h.waiting != [] {
      StartKeeps(h, h.waiting[0], h.waiting[1..]);
      ContinueKeeps(h.(started := h.started + [h.waiting[0]], waiting := h.waiting[1..], next := h.list));
    } else {
      IdleKeeps(h);
    }
  }

  lemma IdleKeeps(h: Round)
    requires Ready(h) && h.next == [] && h.waiting == []
    ensures RoundOk(h.(running := false))
  {
    hide Heard, Ascending;
    forall e | e in h.list ensures HearsAll(h.(running := false), e) { assert HearsAll(h, e); }
  }

  /** The functions join the list; if there has been a report, they are to hear the latest. */
  function Joined(h: Round, fns: seq<nat>): Round {
    var more := Entries(fns, |h.since|);
    h.(list := h.list + more, next := if h.started == [] then h.next else h.next + more,
       since := h.since + seq(|fns|, _ => if h.started == [] then 0 else |h.started| - 1))
  }

  lemma AscendingMore(es: seq<Entry>, fns: seq<nat>, from: nat)
    requires Ascending(es) && forall e :: e in es ==> e.serial < from
    ensures Ascending(es + Entries(fns, from))
    ensures forall e :: e in es + Entries(fns, from) ==> e.serial < from + |fns|
    ensures forall e :: e in Entries(fns, from) ==> e.serial >= from
  {
    forall k | 0 <= k < |es| ensures es[k].serial < from { assert es[k] in es; }
  }

  lemma JoinedInTurn(h: Round, fns: seq<nat>)
    requires InTurn(h)
    ensures InTurn(Joined(h, fns))
    ensures forall e :: e in Entries(fns, |h.since|) ==> |h.since| <= e.serial < |h.since| + |fns|
  {
    AscendingMore(h.list, fns, |h.since|);
    AscendingMore(h.next, fns, |h.since|);
    hide Ascending, Entries;
  }

  lemma JoinedHears(h: Round, fns: seq<nat>, e: Entry)
    requires RoundOk(h) && e in Joined(h, fns).list
    ensures InTurn(Joined(h, fns)) && HearsAll(Joined(h, fns), e)
  {
    JoinedInTurn(h, fns);
    if e in h.list {
      assert HearsAll(h, e);
    } else {
      HeardNothing(h.log, e.serial);
    }
  }

  lemma JoinsMeans(h: Round, fns: seq<nat>)
    requires RoundOk(h)
    ensures After(h, Joins(fns)) == if h.started == [] || h.running then Joined(h, fns) else Continue(Joined(h, fns))
    ensures h.running ==> h.started != []
    ensures !h.running ==>
              && h.waiting == [] && h.next == []
              && (h.list + Entries(fns, |h.since|))[|h.list|..] == Entries(fns, |h.since|)
  {
    assert !h.running ==> h.next == [] && [] + Entries(fns, |h.since|) == Entries(fns, |h.since|);
    hide Continue, WithoutAll;
  }

  lemma JoinsKeeps(h: Round, fns: seq<nat>)
    requires RoundOk(h)
    ensures RoundOk(After(h, Joins(fns)))
    ensures var g := After(h, Joins(fns)); g.started + g.waiting == h.started + h.waiting
  {
    hide After, Continue, RoundOk, InTurn, HearsAll;
    JoinsMeans(h, fns);
    JoinedOk(h, fns);
    if h.started != [] && !h.running { ContinueKeeps(Joined(h, fns)); }
  }

  lemma JoinedOk(h: Round, fns: seq<nat>)
    requires RoundOk(h)
    ensures h.started == [] || h.running ==> RoundOk(Joined(h, fns))
    ensures h.started != [] ==> Ready(Joined(h, fns))
  {
    JoinedInTurn(h, fns);
    forall e | e in Joined(h, fns).list ensures HearsAll(Joined(h, fns), e) { JoinedHears(h, fns, e); }
    hide InTurn, HearsAll, Entries;
  }

  lemma LeavesKeeps(h: Round, fns: seq<nat>)
    requires RoundOk(h)
    ensures RoundOk(After(h, Leaves(fns)))
  {
    var g := After(h, Leaves(fns));
    WithoutAllAscends(h.list, fns);
    WithoutAllMembers(h.list, fns);
    WithoutAllAscends(h.next, fns);
    WithoutAllMembers(h.next, fns);
    WithoutAllSubset(h.next, fns);
    hide WithoutAll, Continue;
    forall e | e in g.list ensures HearsAll(g, e) { assert HearsAll(h, e); }
  }

  lemma AfterKeeps(h: Round, e: Event)
    requires RoundOk(h)
    ensures var g := After(h, e);
            RoundOk(g) && g.started + g.waiting == h.started + h.waiting + (if e.Reports? then [e.args] else [])
  {
    match e
    case Joins(fns) => JoinsKeeps(h, fns); hide *;
    case Leaves(fns) => LeavesKeeps(h, fns); hide RoundOk, WithoutAll;
    case Reports(args) =>
      if !h.running {
        StartKeeps(h, args, h.waiting);
        ContinueKeeps(h.(started := h.started + [args], next := h.list));
      }
      hide Continue, Ready, HearsAll;
    case Finishes =>
      if h.running { ContinueKeeps(h); }
      hide Continue, HearsAll;
  }

  lemma {:induction false} PlayedOk(events: seq<Event>)
    ensures var h := Played(events); RoundOk(h) && h.started + h.waiting == ReportsIn(events)
  {
    if events != [] {
      PlayedOk(events[..|events| - 1]);
      AfterKeeps(Played(events[..|events| - 1]), events[|events| - 1]);
      hide RoundOk, After;
    }
  }

  // ----- the list and the reading -----

  ghost predicate Tracks(l: CallbackList, h: Round)
    reads l
  {
    && l.Valid() && l.options == REPORTS && l.list == Some(h.list) && l.stack == Some(h.waiting)
    && l.log == h.log && l.serial == |h.since| && l.firing == h.running && l.fired == (h.started != [])
    && (h.started == [] ==> l.memory.None?)
    && (h.started != [] ==> l.memory == Some(h.started[|h.started| - 1]))
    && (l.firing ==> l.B().Intact() && l.B().Queue() == h.next)
  }

  lemma QueueIs(list: seq<Entry>, i: nat)
    requires i < |list|
    ensures QueueOf(Some(list), true, i) == list[i + 1..]
  {
  }

  /** Over an empty list all waiting reports are started at once. */
  lemma {:induction false} NobodyListens(h: Round)
    requires h.started != [] && h.list == [] && h.next == []
    ensures Continue(h) == h.(started := h.started + h.waiting, waiting := [], running := false)
    decreases |h.waiting|
  {
    if h.waiting != [] {
      NobodyListens(h.(started := h.started + [h.waiting[0]], waiting := h.waiting[1..], next := h.list));
      assert h.started + [h.waiting[0]] + h.waiting[1..] == h.started + h.waiting;
    } else {
      assert h.started + [] == h.started;
    }
  }

  /** The list after a round over its entries from index i on, and the reading. */
  lemma RoundTracks(l: CallbackList, h: Round, i: nat)
    requires h.started != [] && i <= |h.list| && h.next == h.list[i..]
    requires l.Valid() && l.options == REPORTS && l.fired && l.serial == |h.since|
    requires l.RoundFrom(h.list, i, h.started[|h.started| - 1], true, h.log, Some(h.waiting))
    ensures Tracks(l, Continue(h))
  {
    if i < |h.list| {
      CallTracks(l, h, i);
    } else if h.waiting != [] && h.list != [] {
      var g := h.(started := h.started + [h.waiting[0]], waiting := h.waiting[1..], next := h.list);
      assert Continue(h) == Continue(g);
      assert h.list[0..] == h.list;
      CallTracks(l, g, 0);
    } else {
      if h.list == [] { NobodyListens(h); }
      IdleTracks(l, h);
    }
    hide *;
  }

  lemma CallTracks(l: CallbackList, h: Round, i: nat)
    requires h.started != [] && i < |h.list| && h.next == h.list[i..]
    requires l.Valid() && l.options == REPORTS && l.fired && l.serial == |h.since|
    requires l.Called(h.list, i, h.started[|h.started| - 1], h.log, Some(h.waiting))
    requires l.Remembers(h.started[|h.started| - 1], true)
    ensures Tracks(l, Continue(h))
  {
    QueueIs(h.list, i);
    hide QueueOf, CallbackList.Valid;
  }

  lemma IdleTracks(l: CallbackList, h: Round)
    requires h.started != [] && h.next == [] && (h.waiting == [] || h.list == [])
    requires Continue(h) == h.(started := h.started + h.waiting, waiting := [], running := false)
    requires l.Valid() && l.options == REPORTS && l.fired && l.serial == |h.since|
    requires l.RoundEnded(h.list, h.started[|h.started| - 1], true, h.log, Some(h.waiting))
    ensures Tracks(l, Continue(h))
  {
    hide QueueOf, CallbackList.Valid, Continue;
  }

  /** One event; a return while no function is running does not happen. */
  method Perform(l: CallbackList, e: Event, ghost h: Round)
    requires Tracks(l, h) && RoundOk(h)
    modifies l
    ensures Tracks(l, After(h, e))
  {
    hide Tracks, RoundOk, After, Continue;
    match e
    case Joins(fns) => PerformJoin(l, fns, h);
    case Leaves(fns) => PerformLeave(l, fns, h);
    case Reports(args) => PerformReport(l, args, h);
    case Finishes => PerformFinish(l, h);
  }

  method PerformJoin(l: CallbackList, fns: seq<nat>, ghost h: Round)
    requires Tracks(l, h) && RoundOk(h)
    modifies l
    ensures Tracks(l, After(h, Joins(fns)))
  {
    hide Ledger, OneRound, Added, Books.InOrder, Books.Queue, Entries, Continue, RoundOk, After;
    AddedIs(h.list, fns, |h.since|);
    EntriesSize(fns, |h.since|);
    JoinsMeans(h, fns);
    l.Add(fns);
    if h.started != [] && !h.running {
      RoundTracks(l, Joined(h, fns), |h.list|);
    }
  }

  method PerformLeave(l: CallbackList, fns: seq<nat>, ghost h: Round)
    requires Tracks(l, h) && RoundOk(h)
    modifies l
    ensures Tracks(l, After(h, Leaves(fns)))
  {
    hide Ledger, OneRound, QueueOf, Books.InOrder, Continue, InTurn, HearsAll;
    WithoutAllSubset(h.next, fns);
    l.Remove(fns);
  }

  method PerformReport(l: CallbackList, args: Args, ghost h: Round)
    requires Tracks(l, h) && RoundOk(h)
    modifies l
    ensures Tracks(l, After(h, Reports(args)))
  {
    hide Ledger, OneRound, Books.InOrder, Continue, InTurn, HearsAll;
    l.FireWith(args);
    if !h.running {
      RoundTracks(l, h.(started := h.started + [args], next := h.list), 0);
    }
  }

  method PerformFinish(l: CallbackList, ghost h: Round)
    requires Tracks(l, h) && RoundOk(h)
    modifies l
    ensures Tracks(l, After(h, Finishes))
  {
    hide Ledger, OneRound, Books.InOrder, Continue, InTurn, HearsAll;
    if l.firing {
      ghost var i := l.firingIndex + 1;
      l.Return(false);
      RoundTracks(l, h, i);
    }
  }

  /** Any history of a "memory" list. The list calls exactly whom the reading calls. Once no function is
      running, every listener in the list has heard all reports from the one that was the latest when it was
      added, each once and in order, and the last report is remembered. */
  method Run(events: seq<Event>) returns (l: CallbackList)
    ensures fresh(l) && l.Valid() && l.list.Some?
    ensures var h := Played(events);
            l.log == h.log && l.firing == h.running && l.list.value == h.list && l.serial == |h.since|
    ensures forall e :: e in l.list.value ==> e.serial < l.serial
    ensures var reports := ReportsIn(events);
            !l.firing ==>
              && (forall e :: e in l.list.value ==>
                    var since := Played(events).since[e.serial];
                    since <= |reports| && Heard(l.log, e.serial) == reports[since..])
              && l.memory == if reports == [] then None else Some(reports[|reports| - 1])
  {
    hide RoundOk, Tracks, After, ReportsIn;
    l := new CallbackList(REPORTS);
    AtFirst(l);
    assert events[..0] == [];
    for k := 0 to |events|
      invariant fresh(l) && Tracks(l, Played(events[..k]))
    {
      assert events[..k + 1] == events[..k] + [events[k]];
      PlayedOk(events[..k]);
      PlayedSnoc(events[..k], events[k]);
      Perform(l, events[k], Played(events[..k]));
    }
    assert events[..|events|] == events;
    PlayedOk(events);
    TracksMeans(l, Played(events));
    RoundMeans(Played(events));
  }

  lemma AtFirst(l: CallbackList)
    requires l.Valid() && l.options == REPORTS && !l.firing && !l.fired && l.memory == None
    requires l.list == Some([]) && l.log == [] && l.serial == 0 && l.stack == Some([])
    ensures Tracks(l, Played([]))
  {
  }

  lemma TracksMeans(l: CallbackList, h: Round)
    requires Tracks(l, h)
    ensures l.Valid() && l.list == Some(h.list) && l.log == h.log && l.firing == h.running && l.serial == |h.since|
    ensures l.memory == if h.started == [] then None else Some(h.started[|h.started| - 1])
  {
  }

  lemma RoundMeans(h: Round)
    requires RoundOk(h)
    ensures forall e :: e in h.list ==> e.serial < |h.since|
    ensures !h.running ==>
              && h.started + h.waiting == h.started
              && forall e :: e in h.list ==>
                   h.since[e.serial] <= |h.started| && Heard(h.log, e.serial) == h.started[h.since[e.serial]..]
  {
    if !h.running {
      forall e | e in h.list
        ensures h.since[e.serial] <= |h.started| && Heard(h.log, e.serial) == h.started[h.since[e.serial]..]
      {
        assert HearsAll(h, e) && e !in h.next;
      }
    }
  }

  /** A function added after a report, while none is running, is called at once with the latest report. */
  lemma LatestIsHeard(events: seq<Event>, fn: nat)
    requires !Played(events).running && ReportsIn(events) != []
    ensures var reports := ReportsIn(events);
            var h, g := Played(events), Played(events + [Joins([fn])]);
            && g.running
            && g.log == h.log + [Call(Entry(fn, |h.since|), reports[|reports| - 1])]
            && g.since == h.since + [|reports| - 1]
  {
    PlayedOk(events);
    RoundMeans(Played(events));
    PlayedSnoc(events, Joins([fn]));
  }
}
