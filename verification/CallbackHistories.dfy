/** Whole histories of a "once memory" callback list: what the list does, with its indices that move
    while a function is running, is what a plain waiting line does. */
module CallbackHistories {
  import opened Wrappers
  import opened Callbacks

  /** What can happen to the list: functions are added and removed, it is fired, a running function
      returns, or it is disabled. */
  datatype Event =
    | Adds(fns: seq<nat>)
    | Removes(fns: seq<nat>)
    | Fires(args: Args)
    | Returns(returnedFalse: bool)
    | Disables

  // ----- the waiting line -----

  /** `added` are the functions in the order of their numbers, `waiting` those whose turn is still to
      come, `removed` the numbers of those that were taken out of the waiting line. */
  datatype Line = Line(added: seq<nat>, waiting: seq<Entry>, log: seq<Call>, removed: set<nat>,
                       running: bool, fired: Option<Args>, disabled: bool)

  const START := Line([], [], [], {}, false, None, false)

  function Entries(fns: seq<nat>, from: nat): seq<Entry> {
    seq(|fns|, i requires 0 <= i < |fns| => Entry(fns[i], from + i))
  }

  /** The first in the line is called, if there is one. */
  function CallNext(h: Line): Line
    requires h.fired.Some?
  {
    if h.waiting == [] then h.(running := false)
    else h.(waiting := h.waiting[1..], log := h.log + [Call(h.waiting[0], h.fired.value)], running := true)
  }

  function After(h: Line, e: Event): Line {
    match e
    case Adds(fns) =>
      if h.disabled then h
      else
        var longer := h.(added := h.added + fns, waiting := h.waiting + Entries(fns, |h.added|));
        if h.fired.Some? && !h.running then CallNext(longer) else longer
    case Removes(fns) => h.(waiting := WithoutAll(h.waiting, fns), removed := h.removed + Taken(h.waiting, fns))
    case Fires(args) => if h.disabled || h.fired.Some? then h else CallNext(h.(fired := Some(args)))
    case Returns(_) => if h.running && h.fired.Some? then CallNext(h) else h
    case Disables => h.(waiting := [], removed := h.removed + Serials(h.waiting), disabled := true)
  }

  function Played(events: seq<Event>): Line {
    if events == [] then START else After(Played(events[..|events| - 1]), events[|events| - 1])
  }

  lemma PlayedSnoc(events: seq<Event>, e: Event)
    ensures Played(events + [e]) == After(Played(events), e)
  {
    assert (events + [e])[..|events|] == events;
  }

  // ----- what happens in the line -----

  /** All additions, in order, up to where the list is disabled. */
  function AddedBy(events: seq<Event>): seq<nat> {
    if events == [] then []
    else
      var init := AddedBy(events[..|events| - 1]);
      match events[|events| - 1]
      case Adds(fns) => if Disables in events then init else init + fns
      case _ => init
  }

  /** The arguments of the first fire. */
  function FirstFire(events: seq<Event>): Option<Args> {
    if events == [] then None
    else if events[0].Fires? then Some(events[0].args)
    else FirstFire(events[1..])
  }

  lemma {:induction false} FirstFireSnoc(events: seq<Event>, e: Event)
    ensures FirstFire(events + [e]) == if FirstFire(events).Some? then FirstFire(events)
                                       else if e.Fires? then Some(e.args) else None
  {
    if events == [] {
      assert [e][1..] == [] && [] + [e] == [e];
    } else {
      assert (events + [e])[1..] == events[1..] + [e];
      FirstFireSnoc(events[1..], e);
    }
  }

  lemma EventSnoc(events: seq<Event>, e: Event)
    ensures FirstFire(events + [e]) == if FirstFire(events).Some? then FirstFire(events)
                                       else if e.Fires? then Some(e.args) else None
    ensures AddedBy(events + [e]) == if e.Adds? && Disables !in events then AddedBy(events) + e.fns else AddedBy(events)
    ensures Disables in events + [e] <==> Disables in events || e == Disables
  {
    FirstFireSnoc(events, e);
    assert (events + [e])[..|events|] == events;
  }

  /** Entries are numbered as the functions were added. */
  ghost predicate Numbered(es: seq<Entry>, added: seq<nat>) {
    forall e :: e in es ==> e.serial < |added| && e.fn == added[e.serial]
  }

  ghost predicate LogNumbered(log: seq<Call>, added: seq<nat>) {
    forall k :: 0 <= k < |log| ==> log[k].entry.serial < |added| && log[k].entry.fn == added[log[k].entry.serial]
  }

  /** Nobody is forgotten, nobody called twice or out of turn, nobody waits after the fire while no
      function is running, and all calls have the arguments of the fire. */
  ghost predicate LineOk(h: Line) {
    && Ledger(h.log, h.waiting, h.removed, |h.added|)
    && Numbered(h.waiting, h.added) && LogNumbered(h.log, h.added)
    && (h.fired.None? ==> h.log == [] && !h.running)
    && (h.fired.Some? ==> SameArgs(h.log, h.fired.value) && (h.running || h.waiting == []))
    && (h.disabled ==> h.waiting == [])
  }

  lemma CallNextKeeps(h: Line)
    requires h.fired.Some? && SameArgs(h.log, h.fired.value) && (h.disabled ==> h.waiting == [])
    requires Ledger(h.log, h.waiting, h.removed, |h.added|)
    requires Numbered(h.waiting, h.added) && LogNumbered(h.log, h.added)
    ensures LineOk(CallNext(h))
  {
    hide Ledger;
    if h.waiting != [] {
      LedgerCall(h.log, h.waiting, h.removed, |h.added|, h.fired.value);
      assert h.waiting[0] in h.waiting && forall e :: e in h.waiting[1..] ==> e in h.waiting;
    }
  }

  lemma NumberedMore(waiting: seq<Entry>, log: seq<Call>, added: seq<nat>, fns: seq<nat>)
    requires Numbered(waiting, added) && LogNumbered(log, added)
    ensures Numbered(waiting + Entries(fns, |added|), added + fns) && LogNumbered(log, added + fns)
  {
    var more := Entries(fns, |added|);
    forall e | e in waiting + more ensures e.serial < |added + fns| && e.fn == (added + fns)[e.serial] {
      if e in more {
        var i :| 0 <= i < |more| && more[i] == e;
      }
    }
  }

  lemma AddedIs(l: seq<Entry>, fns: seq<nat>, serial: nat)
    ensures Added(l, fns, false, serial) == Entries(fns, serial)
  {
    AddedPlain(l, fns, serial);
  }

  lemma AfterKeeps(h: Line, e: Event)
    requires LineOk(h)
    ensures LineOk(After(h, e))
  {
    hide Ledger, WithoutAll, Taken, Serials, Numbered, LogNumbered;
    match e
    case Adds(fns) =>
      AddedIs([], fns, |h.added|);
      LedgerAddAll(h.log, h.waiting, h.removed, |h.added|, [], fns, false);
      NumberedMore(h.waiting, h.log, h.added, fns);
      if !h.disabled && h.fired.Some? && !h.running {
        CallNextKeeps(h.(added := h.added + fns, waiting := h.waiting + Entries(fns, |h.added|)));
      }
    case Removes(fns) => RemovedKeeps(h, fns);
    case Fires(args) =>
      if !h.disabled && h.fired.None? { CallNextKeeps(h.(fired := Some(args))); }
    case Returns(_) =>
      if h.running && h.fired.Some? { CallNextKeeps(h); }
    case Disables =>
      LedgerDrop(h.log, h.waiting, h.removed, |h.added|);
      NobodyNumbered(h.added);
  }

  lemma NobodyNumbered(added: seq<nat>)
    ensures Numbered([], added)
  {
  }

  ghost predicate Ascending(es: seq<Entry>) {
    forall j, k :: 0 <= j < k < |es| ==> es[j].serial < es[k].serial
  }

  lemma {:induction false} WithoutAscends(es: seq<Entry>, fn: nat)
    requires Ascending(es)
    ensures Ascending(Without(es, fn))
  {
    if es != [] {
      var init, last := es[..|es| - 1], es[|es| - 1];
      WithoutAscends(init, fn);
      WithoutMembers(init, fn);
      forall e | e in init ensures e.serial < last.serial {
        var k :| 0 <= k < |init| && init[k] == e;
        assert es[k] == e;
      }
    }
  }

  lemma {:induction false} WithoutAllAscends(es: seq<Entry>, fns: seq<nat>)
    requires Ascending(es)
    ensures Ascending(WithoutAll(es, fns))
  {
    if fns != [] {
      WithoutAllAscends(es, fns[..|fns| - 1]);
      WithoutAscends(WithoutAll(es, fns[..|fns| - 1]), fns[|fns| - 1]);
    }
  }

  lemma LedgerRemoveAll(log: seq<Call>, queue: seq<Entry>, dropped: set<nat>, serial: nat, fns: seq<nat>)
    requires Ledger(log, queue, dropped, serial)
    ensures Ledger(log, WithoutAll(queue, fns), dropped + Taken(queue, fns), serial)
  {
    var left := WithoutAll(queue, fns);
    WithoutAllAscends(queue, fns);
    WithoutAllMembers(queue, fns);
    hide WithoutAll;
    forall k | 0 <= k < |left| ensures left[k] in queue && left[k].fn !in fns { assert left[k] in left; }
    LeftNotTaken(log, queue, dropped, serial, fns, left);
    forall s: nat | s < serial ensures InLog(log, s) || InQueue(left, s) || s in dropped + Taken(queue, fns) {
      if InQueue(queue, s) && s !in Taken(queue, fns) {
        var k :| 0 <= k < |queue| && queue[k].serial == s;
        assert queue[k] in left;
      }
    }
  }

  lemma LeftNotTaken(log: seq<Call>, queue: seq<Entry>, dropped: set<nat>, serial: nat, fns: seq<nat>, left: seq<Entry>)
    requires Ledger(log, queue, dropped, serial)
    requires forall k :: 0 <= k < |left| ==> left[k] in queue && left[k].fn !in fns
    ensures forall k :: 0 <= k < |left| ==>
              && left[k].serial < serial && left[k].serial !in dropped + Taken(queue, fns)
              && forall j :: 0 <= j < |log| ==> log[j].entry.serial < left[k].serial
    ensures forall j :: 0 <= j < |log| ==> log[j].entry.serial !in Taken(queue, fns)
    ensures forall s :: s in Taken(queue, fns) ==> s < serial
  {
    forall k | 0 <= k < |left|
      ensures left[k].serial < serial && left[k].serial !in dropped + Taken(queue, fns)
      ensures forall j :: 0 <= j < |log| ==> log[j].entry.serial < left[k].serial
    {
      var i :| 0 <= i < |queue| && queue[i] == left[k];
    }
  }

  lemma RemovedKeeps(h: Line, fns: seq<nat>)
    requires LineOk(h)
    ensures Ledger(h.log, WithoutAll(h.waiting, fns), h.removed + Taken(h.waiting, fns), |h.added|)
    ensures Numbered(WithoutAll(h.waiting, fns), h.added) && (h.waiting == [] ==> WithoutAll(h.waiting, fns) == [])
  {
    WithoutAllMembers(h.waiting, fns);
    LedgerRemoveAll(h.log, h.waiting, h.removed, |h.added|, fns);
    hide Ledger, WithoutAll;
    WithoutAllSubset(h.waiting, fns);
  }

  /** Addition s of a function may have been taken out: the function was removed by name after the
      addition, or the list was disabled. */
  predicate Excused(events: seq<Event>, s: nat, fn: nat) {
    || Disables in events
    || exists k :: 0 <= k < |events| && events[k].Removes? && fn in events[k].fns && s < |AddedBy(events[..k])|
  }

  ghost predicate AllExcused(events: seq<Event>, h: Line) {
    forall s :: s in h.removed ==> s < |h.added| && Excused(events, s, h.added[s])
  }

  lemma StillExcused(events: seq<Event>, e: Event, s: nat, fn: nat)
    requires Excused(events, s, fn)
    ensures Excused(events + [e], s, fn)
  {
    hide AddedBy;
    if k :| 0 <= k < |events| && events[k].Removes? && fn in events[k].fns && s < |AddedBy(events[..k])| {
      assert (events + [e])[k] == events[k] && (events + [e])[..k] == events[..k];
    }
  }

  lemma NowExcused(events: seq<Event>, e: Event, s: nat, fn: nat)
    requires e.Disables? || (e.Removes? && fn in e.fns && s < |AddedBy(events)|)
    ensures Excused(events + [e], s, fn)
  {
    hide AddedBy;
    assert (events + [e])[|events|] == e && (events + [e])[..|events|] == events;
  }

  lemma AfterExcuses(events: seq<Event>, h: Line, e: Event)
    requires LineOk(h) && AllExcused(events, h) && h.added == AddedBy(events)
    ensures AllExcused(events + [e], After(h, e))
  {
    hide Ledger, Excused, LogNumbered, WithoutAll, AddedBy;
    var next := After(h, e);
    forall s | s in next.removed ensures s < |h.added| && Excused(events + [e], s, h.added[s]) {
      if s in h.removed {
        StillExcused(events, e, s, h.added[s]);
      } else {
        var k :| 0 <= k < |h.waiting| && h.waiting[k].serial == s && (e.Removes? ==> h.waiting[k].fn in e.fns);
        assert h.waiting[k] in h.waiting;
        NowExcused(events, e, s, h.waiting[k].fn);
      }
    }
    AddedGrows(h, e);
  }

  lemma AddedGrows(h: Line, e: Event)
    ensures h.added <= After(h, e).added
  {
  }

  /** What the line has to do with the history. */
  lemma {:induction false} LineOf(events: seq<Event>)
    ensures var h := Played(events);
            && LineOk(h) && AllExcused(events, h)
            && h.added == AddedBy(events) && (h.disabled <==> Disables in events)
            && (h.fired.Some? ==> h.fired == FirstFire(events))
            && (Disables !in events ==> h.fired == FirstFire(events))
  {
    hide LineOk, AllExcused, AddedBy, FirstFire, Played, WithoutAll;
    if events == [] {
      LineAtStart();
    } else {
      var init, e := events[..|events| - 1], events[|events| - 1];
      LineOf(init);
      assert events == init + [e];
      EventSnoc(init, e);
      PlayedSnoc(init, e);
      AfterKeeps(Played(init), e);
      AfterExcuses(init, Played(init), e);
    }
  }

  lemma LineAtStart()
    ensures Played([]) == START && LineOk(START) && AllExcused([], START) && AddedBy([]) == [] && FirstFire([]) == None
  {
  }

  /** The functions that were called, in order. */
  function Functions(log: seq<Call>): seq<nat> {
    seq(|log|, k requires 0 <= k < |log| => log[k].entry.fn)
  }

  /** Every addition is called at most once and none that was removed; once the list has been fired and no
      function is running, all others have been called; always in the order of the additions. */
  lemma LineServesAll(h: Line)
    requires LineOk(h)
    ensures forall s: nat :: s < |h.added| ==>
              && TimesCalled(h.log, s) <= (if s in h.removed then 0 else 1)
              && (h.fired.Some? && !h.running ==> TimesCalled(h.log, s) == if s in h.removed then 0 else 1)
    ensures forall j, k :: 0 <= j < k < |h.log| ==> h.log[j].entry.serial < h.log[k].entry.serial
    ensures h.removed == {} && h.fired.Some? && !h.running ==> Functions(h.log) == h.added
  {
    forall s: nat | s < |h.added|
      ensures TimesCalled(h.log, s) <= (if s in h.removed then 0 else 1)
      ensures h.fired.Some? && !h.running ==> TimesCalled(h.log, s) == if s in h.removed then 0 else 1
    {
      CalledOnceIfListed(h.log, s);
      LedgerPlaces(h.log, h.waiting, h.removed, |h.added|, s);
    }
    if h.removed == {} && h.fired.Some? && !h.running {
      InEveryPlace(h.log, |h.added|);
    }
  }

  lemma LargestIsLast(log: seq<Call>, n: nat, k: nat)
    requires forall i, j :: 0 <= i < j < |log| ==> log[i].entry.serial < log[j].entry.serial
    requires forall i :: 0 <= i < |log| ==> log[i].entry.serial < n
    requires k < |log| && log[k].entry.serial == n - 1
    ensures k == |log| - 1
  {
    var last := log[|log| - 1].entry.serial;
  }

  /** Increasing numbers below n that leave none out are 0, 1, and so on. */
  lemma {:induction false} InEveryPlace(log: seq<Call>, n: nat)
    requires forall j, k :: 0 <= j < k < |log| ==> log[j].entry.serial < log[k].entry.serial
    requires forall k :: 0 <= k < |log| ==> log[k].entry.serial < n
    requires forall s: nat :: s < n ==> InLog(log, s)
    ensures |log| == n && forall k :: 0 <= k < n ==> log[k].entry.serial == k
  {
    if n > 0 {
      assert InLog(log, n - 1);
      var k :| 0 <= k < |log| && log[k].entry.serial == n - 1;
      var init := log[..|log| - 1];
      LargestIsLast(log, n, k);
      forall s: nat | s < n - 1 ensures InLog(init, s) {
        assert InLog(log, s);
        var i :| 0 <= i < |log| && log[i].entry.serial == s;
        assert init[i].entry.serial == s;
      }
      InEveryPlace(init, n - 1);
    } else {
      assert |log| > 0 ==> log[0].entry.serial < n;
    }
  }

  // ----- the list and the line -----

  /** The list has called whom the line has called, and still owes a turn to whom the line owes one. */
  ghost predicate Tracks(l: CallbackList, h: Line)
    reads l
  {
    && l.Valid() && l.options == Options(true, true, false, false) && l.B().InOrder()
    && l.log == h.log && l.B().Queue() == h.waiting && l.dropped == h.removed && l.serial == |h.added|
    && l.firing == h.running && l.fired == h.fired.Some? && (l.list.None? <==> h.disabled)
    && (h.fired.Some? && l.list.Some? ==> l.memory == h.fired)
    && (l.firing ==> h.fired == Some(l.data))
  }

  /** One event; a return while no function is running does not happen. */
  method Perform(l: CallbackList, e: Event, ghost h: Line)
    requires Tracks(l, h) && LineOk(h)
    modifies l
    ensures Tracks(l, After(h, e))
  {
    hide Tracks, LineOk, After;
    match e
    case Adds(fns) => PerformAdd(l, fns, h);
    case Removes(fns) => PerformRemove(l, fns, h);
    case Fires(args) => PerformFire(l, args, h);
    case Returns(returnedFalse) => PerformReturn(l, returnedFalse, h);
    case Disables => PerformDisable(l, h);
  }

  method PerformAdd(l: CallbackList, fns: seq<nat>, ghost h: Line)
    requires Tracks(l, h) && LineOk(h)
    modifies l
    ensures Tracks(l, After(h, Adds(fns)))
  {
    hide Ledger, OneRound, Added, Books.InOrder, Entries;
    InOrderIsIntact(l.B());
    if l.list.Some? { AddedIs(l.list.value, fns, l.serial); }
    assert |Entries(fns, l.serial)| == |fns| by { EntriesSize(fns, l.serial); }
    l.Add(fns);
  }

  lemma EntriesSize(fns: seq<nat>, from: nat)
    ensures |Entries(fns, from)| == |fns|
  {
  }

  method PerformRemove(l: CallbackList, fns: seq<nat>, ghost h: Line)
    requires Tracks(l, h) && LineOk(h)
    modifies l
    ensures Tracks(l, After(h, Removes(fns)))
  {
    hide Ledger, OneRound, QueueOf, Books.InOrder;
    InOrderIsIntact(l.B());
    l.Remove(fns);
  }

  method PerformFire(l: CallbackList, args: Args, ghost h: Line)
    requires Tracks(l, h) && LineOk(h)
    modifies l
    ensures Tracks(l, After(h, Fires(args)))
  {
    hide Ledger, OneRound, Books.InOrder;
    l.FireWith(args);
  }

  method PerformReturn(l: CallbackList, returnedFalse: bool, ghost h: Line)
    requires Tracks(l, h) && LineOk(h)
    modifies l
    ensures Tracks(l, After(h, Returns(returnedFalse)))
  {
    hide Ledger, OneRound, Books.InOrder;
    InOrderIsIntact(l.B());
    if l.firing { l.Return(returnedFalse); }
  }

  method PerformDisable(l: CallbackList, ghost h: Line)
    requires Tracks(l, h) && LineOk(h)
    modifies l
    ensures Tracks(l, After(h, Disables))
  {
    hide Ledger, OneRound, Books.InOrder;
    l.DisableList();
  }

  lemma InOrderIsIntact(b: Books)
    requires b.InOrder()
    ensures b.Intact()
  {
  }

  /** Any history of a "once memory" list. The list calls exactly whom the waiting line calls, and is
      running a function exactly when the line is. So nobody is called twice and nobody who was removed
      while waiting; once the list has been fired and no function is running, all others have been called;
      always in the order of the additions, with the arguments of the first fire. */
  method Run(events: seq<Event>) returns (l: CallbackList)
    ensures fresh(l) && l.Valid()
    ensures var h := Played(events);
            && l.log == h.log && l.firing == h.running && l.fired == h.fired.Some?
            && l.serial == |h.added| && h.added == AddedBy(events) && LogNumbered(l.log, h.added)
            && (forall s: nat :: s < |h.added| ==>
                  && TimesCalled(l.log, s) <= (if s in h.removed then 0 else 1)
                  && (l.fired && !l.firing ==> TimesCalled(l.log, s) == if s in h.removed then 0 else 1))
            && AllExcused(events, h)
            && (h.removed == {} && l.fired && !l.firing ==> Functions(l.log) == h.added)
    ensures Disables !in events ==> (l.fired <==> FirstFire(events).Some?)
    ensures forall j, k :: 0 <= j < k < |l.log| ==> l.log[j].entry.serial < l.log[k].entry.serial
    ensures l.log != [] ==> FirstFire(events).Some? && SameArgs(l.log, FirstFire(events).value)
  {
    hide LineOk, Tracks, Ledger, OneRound, Books.InOrder, AllExcused, After, QueueOf, AddedBy, FirstFire;
    l := new CallbackList(Options(true, true, false, false));
    Beginning(l);
    assert events[..0] == [];
    for k := 0 to |events|
      invariant fresh(l) && Tracks(l, Played(events[..k]))
    {
      assert events[..k + 1] == events[..k] + [events[k]];
      LineOf(events[..k]);
      PlayedSnoc(events[..k], events[k]);
      Perform(l, events[k], Played(events[..k]));
    }
    assert events[..|events|] == events;
    LineOf(events);
    LineMeans(Played(events));
    LineServesAll(Played(events));
    TracksMeans(l, Played(events));
  }

  lemma Beginning(l: CallbackList)
    requires l.Valid() && l.options == Options(true, true, false, false) && l.B().InOrder()
    requires !l.firing && !l.fired && l.memory == None && l.list == Some([])
    requires l.log == [] && l.serial == 0 && l.dropped == {}
    ensures Tracks(l, Played([]))
  {
    hide Books.InOrder;
  }

  lemma TracksMeans(l: CallbackList, h: Line)
    requires Tracks(l, h)
    ensures l.Valid() && l.log == h.log && l.firing == h.running && l.fired == h.fired.Some? && l.serial == |h.added|
  {
  }

  lemma LineMeans(h: Line)
    requires LineOk(h)
    ensures LogNumbered(h.log, h.added)
    ensures h.fired.None? ==> h.log == []
    ensures h.fired.Some? ==> SameArgs(h.log, h.fired.value)
  {
  }
}
