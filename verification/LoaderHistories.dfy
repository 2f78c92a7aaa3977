/** Whole histories of a loader context. */
module LoaderHistories {
  import opened Wrappers
  import opened LoaderState
  import opened LoaderSteps
  import opened LoaderTheorems
  import opened DefineQueue
  import opened Loader

  /** A `require` call takes in queued definitions at once (`Queued`) and again in the next tick
      (`Requested`), where it also looks for cycles. The definitions are those made since the last event. */
  datatype Event =
    | ScriptLoaded(name: nat, queued: seq<Definition>)
    | Queued(queued: seq<Definition>)
    | Requested(queued: seq<Definition>, deps: seq<Dep>, callback: Factory)

  /** The `define` calls that are left in the queue, and how many `require` calls got their module. */
  datatype Pending = Pending(left: seq<Definition>, requests: nat)

  /** The queue an event finds has a name for each call in it, so that the `require` call goes ahead. */
  predicate GoesAhead(p: Pending, e: Event) {
    e.Requested? && FirstAnonymous(Taken(p.left, e.queued)) == |Taken(p.left, e.queued)|
  }

  /** Where the event stops taking in the queue, and the name it gives to calls without one. */
  function StopFor(q: seq<Definition>, e: Event): (k: nat)
    ensures k <= |q|
  {
    if e.ScriptLoaded? then StopsAt(q, e.name) else FirstAnonymous(q)
  }

  function NameOf(e: Event): nat {
    if e.ScriptLoaded? then e.name else 0
  }

  /** What the event defines itself. */
  function Defined(p: Pending, e: Event): Option<Extra> {
    match e
    case ScriptLoaded(name, _) => Some(Extra(Named(name), [], Literal(Undefined)))
    case Queued(_) => None
    case Requested(_, deps, callback) =>
      if GoesAhead(p, e) then Some(Extra(Req(2 + p.requests), deps, callback)) else None
  }

  function Next(p: Pending, e: Event): Pending {
    var q := Taken(p.left, e.queued);
    Pending(LeftAfter(q, StopFor(q, e)), p.requests + (if GoesAhead(p, e) then 1 else 0))
  }

  function Since(events: seq<Event>): Pending {
    if events == [] then Pending([], 0) else Next(Since(events[..|events| - 1]), events[|events| - 1])
  }

  /** Request number k of a history gets a module, and the module it gets. */
  predicate Requests(events: seq<Event>, k: nat) {
    k < |events| && events[k].Requested? && GoesAhead(Since(events[..k]), events[k])
  }

  function ModuleFor(events: seq<Event>, k: nat): Id
    requires k < |events|
  {
    Req(2 + Since(events[..k]).requests)
  }

  /** An event that ends with a search for cycles. */
  predicate Checks(p: Pending, e: Event) {
    e.ScriptLoaded? || GoesAhead(p, e)
  }

  method Happen(c: Context, e: Event, ghost p: Pending)
    requires Quiet(c.S()) && c.defQueue.items == p.left && c.requireCounter == 1 + p.requests
    modifies c, c.defQueue
    ensures Quiet(c.S()) && Grows(old(c.S()), c.S()) && NewWanted(old(c.S()), c.S())
    ensures c.defQueue.items == Next(p, e).left && c.requireCounter == 1 + Next(p, e).requests
    ensures AllReady(c.S()) && Checks(p, e) ==> AllAnswered(c.S())
    ensures GoesAhead(p, e) ==> DefinedAs(c.S(), Req(2 + p.requests), e.deps, e.callback)
    ensures var q := Taken(p.left, e.queued);
            TookIn(old(c.S()), c.S(), q, StopFor(q, e), NameOf(e), Defined(p, e))
  {
    hide Inv, Quiet, Grows, TookIn, NewWanted, Taken, FirstAnonymous, StopsAt;
    match e {
      case ScriptLoaded(name, queued) => c.CompleteLoad(name, queued);
      case Queued(queued) => var ok := c.IntakeDefines(queued);
      case Requested(queued, deps, callback) => var made := c.Require(queued, deps, callback);
    }
    ReadyMeans(c.S());
  }

  // ----- histories in which no definition is lost -----

  /** No call without a name comes after one of the script's own, or in the queue of a `require` call. */
  predicate Tidy(e: Event) {
    if e.ScriptLoaded? then
      forall i, j :: 0 <= i < j < |e.queued| && e.queued[i].name in {None, Some(e.name)} ==> e.queued[j].name.Some?
    else
      forall j :: 0 <= j < |e.queued| ==> e.queued[j].name.Some?
  }

  /** Event i has a `define` call number k, and the module it is for. */
  predicate IsCall(events: seq<Event>, i: int, k: int) {
    0 <= i < |events| && 0 <= k < |events[i].queued|
  }

  function CallFor(events: seq<Event>, i: int, k: int): nat
    requires IsCall(events, i, k)
  {
    var d := events[i].queued[k];
    if d.name.Some? then d.name.value else if events[i].ScriptLoaded? then events[i].name else 0
  }

  /** The script of module x has been loaded by one of the first n events. */
  predicate Loads(events: seq<Event>, n: nat, x: nat)
    requires n <= |events|
  {
    exists j :: 0 <= j < n && events[j].ScriptLoaded? && events[j].name == x
  }

  /** No earlier `define` call is for the same module, nor has its script been loaded before. */
  ghost predicate IsFirst(events: seq<Event>, i: int, k: int)
    requires IsCall(events, i, k)
  {
    && !Loads(events, i, CallFor(events, i, k))
    && forall j, l :: IsCall(events, j, l) && (j < i || (j == i && l < k)) ==>
                        CallFor(events, j, l) != CallFor(events, i, k)
  }

  /** Some definition or `require` call of the history depends on x. */
  ghost predicate Asks(events: seq<Event>, x: nat) {
    || (exists i, k :: IsCall(events, i, k) && On(x) in events[i].queued[k].deps)
    || (exists i :: 0 <= i < |events| && events[i].Requested? && On(x) in events[i].deps)
  }

  ghost predicate Provides(events: seq<Event>, x: nat) {
    exists i, k :: IsCall(events, i, k) && CallFor(events, i, k) == x
  }

  /** All definitions are known. */
  ghost predicate AllKnown(s: State, events: seq<Event>) {
    forall i, k :: IsCall(events, i, k) ==> Inited(s, Named(CallFor(events, i, k)))
  }

  /** A module is what the first definition for it says. */
  ghost predicate FirstWins(s: State, events: seq<Event>) {
    forall i, k :: IsCall(events, i, k) && IsFirst(events, i, k) ==>
                     DefinedAs(s, Named(CallFor(events, i, k)), events[i].queued[k].deps, events[i].queued[k].factory)
  }

  /** What is known, and what it depends on, comes from the history. */
  ghost predicate FromHistory(s: State, events: seq<Event>) {
    && (forall x :: Inited(s, Named(x)) ==> Provides(events, x) || Loads(events, |events|, x))
    && (forall a, x :: Inited(s, a) && On(x) in s.mods[a].deps ==> Asks(events, x))
  }

  lemma MoreEvents(events: seq<Event>, e: Event)
    ensures var more := events + [e];
            && (forall i, k :: IsCall(more, i, k) <==>
                  IsCall(events, i, k) || (i == |events| && 0 <= k < |e.queued|))
            && (forall i, k :: IsCall(events, i, k) ==>
                  && CallFor(more, i, k) == CallFor(events, i, k)
                  && more[i].queued[k] == events[i].queued[k])
            && (forall k: nat :: k < |e.queued| ==>
                  CallFor(more, |events|, k) == NameFor(e.queued[k], NameOf(e)))
            && (forall n: nat, x :: n <= |events| ==> (Loads(more, n, x) <==> Loads(events, n, x)))
  {
    var more := events + [e];
    assert forall i :: 0 <= i < |events| ==> more[i] == events[i];
    forall n: nat, x | n <= |events| ensures Loads(more, n, x) <==> Loads(events, n, x) {
      if Loads(events, n, x) {
        var j :| 0 <= j < n && events[j].ScriptLoaded? && events[j].name == x;
        assert more[j] == events[j];
      }
    }
  }

  lemma KnownOn(s: State, t: State, events: seq<Event>, e: Event, extra: Option<Extra>)
    requires AllKnown(s, events) && Grows(s, t) && TookIn(s, t, e.queued, |e.queued|, NameOf(e), extra)
    ensures AllKnown(t, events + [e])
  {
    MoreEvents(events, e);
    StillDefinedAs(s, t);
    var more := events + [e];
    forall i, k | IsCall(more, i, k) ensures Inited(t, Named(CallFor(more, i, k))) {
      if IsCall(events, i, k) { assert Inited(s, Named(CallFor(events, i, k))); }
    }
  }

  lemma FirstWinsOn(s: State, t: State, events: seq<Event>, e: Event, extra: Option<Extra>)
    requires AllKnown(s, events) && FirstWins(s, events) && FromHistory(s, events)
    requires Grows(s, t) && TookIn(s, t, e.queued, |e.queued|, NameOf(e), extra)
    ensures FirstWins(t, events + [e])
  {
    MoreEvents(events, e);
    StillDefinedAs(s, t);
    var more := events + [e];
    forall i, k | IsCall(more, i, k) && IsFirst(more, i, k)
      ensures DefinedAs(t, Named(CallFor(more, i, k)), more[i].queued[k].deps, more[i].queued[k].factory)
    {
      if IsCall(events, i, k) {
        StillFirst(events, e, i, k);
        assert DefinedAs(s, Named(CallFor(events, i, k)), events[i].queued[k].deps, events[i].queued[k].factory);
      } else {
        NewFirst(s, events, e, k);
      }
    }
  }

  lemma StillFirst(events: seq<Event>, e: Event, i: int, k: int)
    requires IsCall(events, i, k) && IsCall(events + [e], i, k) && IsFirst(events + [e], i, k)
    ensures IsFirst(events, i, k)
  {
    MoreEvents(events, e);
  }

  /** The first definition for a module finds it unknown. */
  lemma NewFirst(s: State, events: seq<Event>, e: Event, k: int)
    requires FromHistory(s, events) && 0 <= k < |e.queued|
    requires IsCall(events + [e], |events|, k) && IsFirst(events + [e], |events|, k)
    ensures !Inited(s, Named(NameFor(e.queued[k], NameOf(e)))) && FirstFor(e.queued, k, NameOf(e))
  {
    MoreEvents(events, e);
    var more, x := events + [e], NameFor(e.queued[k], NameOf(e));
    assert CallFor(more, |events|, k) == x;
    forall j | 0 <= j < k ensures NameFor(e.queued[j], NameOf(e)) != x {
      assert IsCall(more, |events|, j);
    }
  }

  lemma FromOn(s: State, t: State, events: seq<Event>, e: Event, p: Pending)
    requires FromHistory(s, events) && Grows(s, t)
    requires TookIn(s, t, e.queued, |e.queued|, NameOf(e), Defined(p, e))
    ensures FromHistory(t, events + [e])
  {
    MoreEvents(events, e);
    StillDefinedAs(s, t);
    var more := events + [e];
    assert more[|events|] == e;
    forall x | Inited(t, Named(x)) ensures Provides(more, x) || Loads(more, |more|, x) {
      if Inited(s, Named(x)) { StillProvided(events, e, x); } else { NowProvided(t, events, e, p, x); }
    }
    forall a, x | Inited(t, a) && On(x) in t.mods[a].deps ensures Asks(more, x) {
      if Inited(s, a) {
        assert DefinedAs(t, a, s.mods[a].deps, s.mods[a].factory);
        StillAsks(events, e, x);
      } else {
        NowAsks(t, events, e, p, a, x);
      }
    }
  }

  lemma StillProvided(events: seq<Event>, e: Event, x: nat)
    ensures Provides(events, x) ==> Provides(events + [e], x)
    ensures Loads(events, |events|, x) ==> Loads(events + [e], |events + [e]|, x)
  {
    MoreEvents(events, e);
    if i, k :| IsCall(events, i, k) && CallFor(events, i, k) == x { assert IsCall(events + [e], i, k); }
    if j :| 0 <= j < |events| && events[j].ScriptLoaded? && events[j].name == x {
      assert (events + [e])[j] == events[j];
    }
  }

  lemma StillAsks(events: seq<Event>, e: Event, x: nat)
    requires Asks(events, x)
    ensures Asks(events + [e], x)
  {
    MoreEvents(events, e);
    if i, k :| IsCall(events, i, k) && On(x) in events[i].queued[k].deps {
      assert IsCall(events + [e], i, k);
    } else {
      var i :| 0 <= i < |events| && events[i].Requested? && On(x) in events[i].deps;
      assert (events + [e])[i] == events[i];
    }
  }

  lemma NowProvided(t: State, events: seq<Event>, e: Event, p: Pending, x: nat)
    requires ComesFrom(t, Named(x), e.queued, |e.queued|, NameOf(e))
             || (Defined(p, e).Some? && Named(x) == Defined(p, e).value.id)
    ensures Provides(events + [e], x) || Loads(events + [e], |events + [e]|, x)
  {
    MoreEvents(events, e);
    var more := events + [e];
    if ComesFrom(t, Named(x), e.queued, |e.queued|, NameOf(e)) {
      var k :| 0 <= k < |e.queued| && Named(x) == Named(NameFor(e.queued[k], NameOf(e)))
               && DefinedAs(t, Named(x), e.queued[k].deps, e.queued[k].factory);
      assert IsCall(more, |events|, k) && CallFor(more, |events|, k) == x;
    } else {
      assert more[|events|].ScriptLoaded? && more[|events|].name == x;
    }
  }

  lemma NowAsks(t: State, events: seq<Event>, e: Event, p: Pending, a: Id, x: nat)
    requires a in t.mods && On(x) in t.mods[a].deps
    requires ComesFrom(t, a, e.queued, |e.queued|, NameOf(e))
             || (Defined(p, e).Some? && DefinedAs(t, a, Defined(p, e).value.deps, Defined(p, e).value.factory))
    ensures Asks(events + [e], x)
  {
    MoreEvents(events, e);
    var more := events + [e];
    assert more[|events|] == e;
    if ComesFrom(t, a, e.queued, |e.queued|, NameOf(e)) {
      var k :| 0 <= k < |e.queued| && a == Named(NameFor(e.queued[k], NameOf(e)))
               && DefinedAs(t, a, e.queued[k].deps, e.queued[k].factory);
      assert IsCall(more, |events|, k);
    }
  }

  ghost predicate Follows(s: State, events: seq<Event>) {
    AllKnown(s, events) && FirstWins(s, events) && FromHistory(s, events) && AllWanted(s)
  }

  lemma FollowsOn(s: State, t: State, events: seq<Event>, e: Event, p: Pending)
    requires Follows(s, events) && Grows(s, t) && NewWanted(s, t)
    requires TookIn(s, t, e.queued, |e.queued|, NameOf(e), Defined(p, e))
    ensures Follows(t, events + [e])
  {
    hide AllKnown, FirstWins, FromHistory, AllWanted, TookIn, Grows, NewWanted;
    KnownOn(s, t, events, e, Defined(p, e));
    FirstWinsOn(s, t, events, e, Defined(p, e));
    FromOn(s, t, events, e, p);
    WantedSince(s, t);
  }

  ghost predicate AllTidy(events: seq<Event>) {
    forall i :: 0 <= i < |events| ==> Tidy(events[i])
  }

  lemma TidyStops(e: Event)
    requires Tidy(e)
    ensures StopFor(e.queued, e) == |e.queued| && Taken([], e.queued) == e.queued
  {
    TakenIs([], e.queued);
    if e.ScriptLoaded? { AllTakenIn(e.queued, e.name); }
    hide StopsAt, Taken, FirstAnonymous;
  }

  lemma {:induction false} NothingLeft(events: seq<Event>)
    requires AllTidy(events)
    ensures Since(events).left == []
  {
    if events != [] {
      NothingLeft(events[..|events| - 1]);
      TidyStops(events[|events| - 1]);
    }
  }

  lemma FollowsNothing(s: State)
    requires s.mods == map[]
    ensures Follows(s, [])
  {
  }

  lemma WantedIsKnown(s: State, events: seq<Event>, m: Id)
    requires Wanted(s, m) && AllKnown(s, events) && FromHistory(s, events)
    requires forall x :: Asks(events, x) ==> Provides(events, x)
    ensures Inited(s, m)
  {
    var a :| Inited(s, a) && On(m.name) in s.mods[a].deps;
    assert Asks(events, m.name);
    var i, k :| IsCall(events, i, k) && CallFor(events, i, k) == m.name;
  }

  /** If every module that something depends on is defined in the history, nothing is still being loaded. */
  lemma AllProvided(s: State, events: seq<Event>)
    requires Quiet(s) && Follows(s, events)
    requires forall x :: Asks(events, x) ==> Provides(events, x)
    ensures AllReady(s)
  {
    hide Quiet, AllKnown, FromHistory, Wanted, Asks, Provides;
    forall m | m in s.mods && m in s.enabledRegistry ensures s.mods[m].inited {
      if m.Req? {
        RequestInited(s, m);
      } else if Wanted(s, m) {
        WantedIsKnown(s, events, m);
      }
    }
  }

  /** The callback has been called, once, and all it depends on is defined. */
  ghost predicate Served(s: State, id: Id) {
    && id in s.mods && s.mods[id].defined && DefinedFrom(s, id)
    && (s.mods[id].factory.Function? ==> CallsOf(s.calls, id) == 1)
  }

  lemma AllServed(s: State)
    requires Quiet(s) && AllAnswered(s)
    ensures forall id: Id :: id.Req? && id in s.mods ==> Served(s, id)
  {
    forall id: Id | id.Req? && id in s.mods ensures Served(s, id) { AnsweredOnce(s, id); }
  }

  /** Any history of a context: scripts arrive and `require` is called, in any order. As soon as no
      enabled module is waiting for its script, and no call for its next tick, every callback has been
      called, exactly once, and all it depends on is defined, on any dependency graph. If no definition is
      lost for want of a name, every module is what the first definition for it says; and if there is a
      definition for every module that something depends on, no module is waiting. */
  method Run(events: seq<Event>) returns (c: Context)
    ensures fresh(c) && Quiet(c.S())
    ensures forall k :: 0 <= k < |events| && Requests(events, k) ==>
              DefinedAs(c.S(), ModuleFor(events, k), events[k].deps, events[k].callback)
    ensures (forall m :: m in c.enabledRegistry ==> m in c.mods && c.mods[m].inited)
            && (events == [] || Checks(Since(events[..|events| - 1]), events[|events| - 1])) ==>
              forall k :: 0 <= k < |events| && Requests(events, k) ==> Served(c.S(), ModuleFor(events, k))
    ensures AllTidy(events) ==>
              forall i, k :: IsCall(events, i, k) ==>
                && Inited(c.S(), Named(CallFor(events, i, k)))
                && (IsFirst(events, i, k) ==> DefinedAs(c.S(), Named(CallFor(events, i, k)),
                                                        events[i].queued[k].deps, events[i].queued[k].factory))
    ensures AllTidy(events) && (forall x :: Asks(events, x) ==> Provides(events, x))
            && events != [] && !events[|events| - 1].Queued? ==>
              forall k :: 0 <= k < |events| && events[k].Requested? ==> Served(c.S(), ModuleFor(events, k))
  {
    hide Inv, Quiet, Grows, AllReady, AllAnswered, GoesAhead, Checks, Next, Follows, TookIn, Served, Taken;
    hide NewWanted, Since;
    c := new Context();
    NothingAnswered(c.S());
    FollowsNothing(c.S());
    assert events[..0] == [] && Since([]) == Pending([], 0) by { NothingSince(); }
    for k := 0 to |events|
      invariant fresh(c) && fresh(c.defQueue) && Quiet(c.S())
      invariant c.defQueue.items == Since(events[..k]).left && c.requireCounter == 1 + Since(events[..k]).requests
      invariant AllReady(c.S()) && (k == 0 || Checks(Since(events[..k - 1]), events[k - 1])) ==> AllAnswered(c.S())
      invariant forall j :: 0 <= j < k && Requests(events, j) ==>
                  DefinedAs(c.S(), ModuleFor(events, j), events[j].deps, events[j].callback)
      invariant AllTidy(events[..k]) ==> Follows(c.S(), events[..k])
    {
      ghost var s := c.S();
      SinceNext(events, k);
      Happen(c, events[k], Since(events[..k]));
      StillInited(s, c.S());
      if AllTidy(events[..k + 1]) {
        assert events[..k + 1] == events[..k] + [events[k]];
        TidyFollows(s, c.S(), events[..k], events[k]);
      }
    }
    assert events[..|events|] == events;
    Conclude(c.S(), events);
  }

  lemma NothingSince()
    ensures Since([]) == Pending([], 0)
  {
  }

  lemma SinceNext(events: seq<Event>, k: nat)
    requires k < |events|
    ensures Since(events[..k + 1]) == Next(Since(events[..k]), events[k])
    ensures Next(Since(events[..k]), events[k]).requests
         == Since(events[..k]).requests + (if GoesAhead(Since(events[..k]), events[k]) then 1 else 0)
  {
    assert events[..k + 1][..k] == events[..k];
  }

  lemma TidyFollows(s: State, t: State, events: seq<Event>, e: Event)
    requires AllTidy(events + [e])
    requires AllTidy(events) ==> Follows(s, events)
    requires Grows(s, t) && NewWanted(s, t)
    requires var p := Since(events);
             var q := Taken(p.left, e.queued); TookIn(s, t, q, StopFor(q, e), NameOf(e), Defined(p, e))
    ensures Follows(t, events + [e])
  {
    assert (events + [e])[|events|] == e && forall i :: 0 <= i < |events| ==> (events + [e])[i] == events[i];
    NothingLeft(events);
    TidyStops(e);
    FollowsOn(s, t, events, e, Since(events));
  }

  lemma TidyGoesAhead(events: seq<Event>, k: nat)
    requires AllTidy(events) && k < |events|
    ensures events[k].Requested? ==> Requests(events, k)
    ensures !events[k].Queued? ==> Checks(Since(events[..k]), events[k])
  {
    NothingLeft(events[..k]);
    TidyStops(events[k]);
  }

  lemma Conclude(s: State, events: seq<Event>)
    requires Quiet(s)
    requires AllReady(s) && (events == [] || Checks(Since(events[..|events| - 1]), events[|events| - 1])) ==>
               AllAnswered(s)
    requires forall j :: 0 <= j < |events| && Requests(events, j) ==>
               DefinedAs(s, ModuleFor(events, j), events[j].deps, events[j].callback)
    requires AllTidy(events) ==> Follows(s, events)
    ensures (forall m :: m in s.enabledRegistry ==> m in s.mods && s.mods[m].inited)
            && (events == [] || Checks(Since(events[..|events| - 1]), events[|events| - 1])) ==>
              forall k :: 0 <= k < |events| && Requests(events, k) ==> Served(s, ModuleFor(events, k))
    ensures AllTidy(events) ==>
              forall i, k :: IsCall(events, i, k) ==>
                && Inited(s, Named(CallFor(events, i, k)))
                && (IsFirst(events, i, k) ==> DefinedAs(s, Named(CallFor(events, i, k)),
                                                        events[i].queued[k].deps, events[i].queued[k].factory))
    ensures AllTidy(events) && (forall x :: Asks(events, x) ==> Provides(events, x))
            && events != [] && !events[|events| - 1].Queued? ==>
              forall k :: 0 <= k < |events| && events[k].Requested? ==> Served(s, ModuleFor(events, k))
  {
    ReadyMeans(s);
    if AllAnswered(s) { AllServed(s); }
    if AllTidy(events) {
      if forall x :: Asks(events, x) ==> Provides(events, x) { AllProvided(s, events); }
      forall k: nat | k < |events|
        ensures events[k].Requested? ==> Requests(events, k)
        ensures !events[k].Queued? ==> Checks(Since(events[..k]), events[k])
      {
        TidyGoesAhead(events, k);
      }
    }
    hide Quiet, AllReady, AllAnswered, GoesAhead, Checks, Since, Served, FromHistory, AllWanted, Asks, Provides;
  }
}
