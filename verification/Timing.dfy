/** `_.throttle` and `_.debounce` over a monotone clock and timers that never fire early. Functions
    that call the wrapped function again while they run take the same steps: the state is updated
    before the function is called. */
module Timing {
  import opened Wrappers

  type Args = int

  /** A call of the wrapper. */
  datatype Call = Call(time: nat, args: Args)

  /** A run of the function, with the arguments of call number `call`. */
  datatype Run = Run(time: nat, args: Args, call: nat)

  type Timers = map<nat, int> // when each pending timer is due

  /** Calls and runs in the order of time; every run has the arguments of the call it names, which was
      the latest at that time; no call is served twice. */
  ghost predicate History(calls: seq<Call>, runs: seq<Run>, now: nat) {
    && (forall i :: 0 <= i < |calls| ==> calls[i].time <= now)
    && (forall i, j :: 0 <= i < j < |calls| ==> calls[i].time <= calls[j].time)
    && (forall r :: 0 <= r < |runs| ==> runs[r].time <= now && InHistory(calls, runs[r]))
    && (forall r, q :: 0 <= r < q < |runs| ==> runs[r].time <= runs[q].time && runs[r].call < runs[q].call)
  }

  ghost predicate InHistory(calls: seq<Call>, run: Run) {
    && run.call < |calls| && run.args == calls[run.call].args && calls[run.call].time <= run.time
    && (run.call + 1 < |calls| ==> run.time <= calls[run.call + 1].time)
  }

  lemma CallInHistory(calls: seq<Call>, runs: seq<Run>, now: nat, call: Call)
    requires History(calls, runs, now) && now <= call.time
    ensures History(calls + [call], runs, call.time) && Served(runs) <= |calls|
  {
    forall r | 0 <= r < |runs| ensures InHistory(calls + [call], runs[r]) {
      assert InHistory(calls, runs[r]);
    }
  }

  lemma TimePasses(calls: seq<Call>, runs: seq<Run>, now: nat, time: nat)
    requires History(calls, runs, now) && now <= time
    ensures History(calls, runs, time) && Served(runs) <= |calls|
  {
  }

  lemma RunInHistory(calls: seq<Call>, runs: seq<Run>, now: nat, time: nat)
    requires History(calls, runs, now) && now <= time && calls != []
    requires Served(runs) < |calls|
    ensures var run := Run(time, calls[|calls| - 1].args, |calls| - 1);
            History(calls, runs + [run], time) && Served(runs + [run]) == |calls|
  {
    forall r | 0 <= r < |runs| ensures InHistory(calls, runs[r]) && runs[r].call < |calls| - 1 {
      assert runs[r].call <= runs[|runs| - 1].call;
    }
  }

  /** How many calls are answered by a run that has their arguments or later ones. */
  ghost function Served(runs: seq<Run>): nat {
    if runs == [] then 0 else runs[|runs| - 1].call + 1
  }

  ghost predicate Apart(runs: seq<Run>, wait: int) {
    forall r :: 0 <= r < |runs| - 1 ==> runs[r + 1].time - runs[r].time >= wait
  }

  lemma ApartSnoc(runs: seq<Run>, wait: int, run: Run)
    requires Apart(runs, wait) && (runs != [] ==> run.time - runs[|runs| - 1].time >= wait)
    ensures Apart(runs + [run], wait)
  {
  }

  /** Call k ran the function at once, or came less than a wait after a run. The clock starts a wait after
      a run that never was. */
  ghost predicate Prompt(calls: seq<Call>, runs: seq<Run>, wait: int, k: nat)
    requires k < |calls|
  {
    || calls[k].time < wait
    || exists r :: 0 <= r < |runs| && runs[r].time <= calls[k].time
                   && (calls[k].time < runs[r].time + wait || (runs[r].call == k && runs[r].time == calls[k].time))
  }

  ghost predicate AllPrompt(calls: seq<Call>, runs: seq<Run>, wait: int) {
    forall k :: 0 <= k < |calls| ==> Prompt(calls, runs, wait, k)
  }

  lemma StillPrompt(calls: seq<Call>, runs: seq<Run>, runs': seq<Run>, wait: int)
    requires runs <= runs'
    ensures AllPrompt(calls, runs, wait) ==> AllPrompt(calls, runs', wait)
  {
    if AllPrompt(calls, runs, wait) {
      forall k | 0 <= k < |calls| ensures Prompt(calls, runs', wait, k) {
        assert Prompt(calls, runs, wait, k);
        assert forall r :: 0 <= r < |runs| ==> runs'[r] == runs[r];
      }
    }
  }

  lemma CallPrompt(calls: seq<Call>, runs: seq<Run>, call: Call, runs': seq<Run>, wait: int)
    requires AllPrompt(calls, runs, wait) && runs <= runs'
    requires call.time < wait || (runs' != [] && var run := runs'[|runs'| - 1];
               && run.time <= call.time
               && (call.time < run.time + wait || (run.call == |calls| && run.time == call.time)))
    ensures AllPrompt(calls + [call], runs', wait)
  {
    StillPrompt(calls, runs, runs', wait);
    assert Prompt(calls + [call], runs', wait, |calls|);
    forall k | 0 <= k < |calls| ensures Prompt(calls + [call], runs', wait, k) {
      assert Prompt(calls, runs', wait, k);
    }
  }

  class Throttle {
    const wait: int
    const leading: bool
    const trailing: bool
    // None is the number 0
    var previous: Option<nat>
    var timeout: Option<nat>
    var args: Args
    // the timers of the environment
    var timers: Timers
    var nextTimer: nat
    var now: nat // the clock
    ghost var calls: seq<Call>
    ghost var runs: seq<Run>
    ghost var answered: nat // how many calls there were when a timer last ran the function

    ghost predicate Valid()
      reads this
    {
      && History(calls, runs, now) && Apart(runs, wait)
      && (calls != [] ==> args == calls[|calls| - 1].args)
      && OneTimer()
      && (timeout.Some? ==> trailing && Served(runs) < |calls|)
      // due exactly one wait after `previous`, so at most one wait after the first call it will answer
      && (timeout.Some? ==> timers[timeout.value] == (if previous.Some? then previous.value else 0) + wait)
      && (timeout.Some? ==> timers[timeout.value] <= calls[Served(runs)].time + wait)
      && (previous.None? && !leading ==> timeout.None?)
      && (timeout.Some? && runs != [] ==> runs[|runs| - 1].time + wait <= timers[timeout.value])
      && (previous.Some? ==> previous.value <= now && (runs != [] ==> runs[|runs| - 1].time <= previous.value))
      && (previous.None? && leading ==> runs == [])
      && answered <= |calls| && (!leading ==> (previous.None? <==> |calls| == answered))
      && (leading && previous.Some? ==> runs != [] && previous.value == runs[|runs| - 1].time)
      // no call is lost, and none is put off without need
      && (trailing && timeout.None? ==> Served(runs) == |calls|)
      && (leading ==> AllPrompt(calls, runs, wait))
    }

    ghost predicate OneTimer()
      reads this`timers, this`timeout, this`nextTimer
    {
      && (forall t :: t in timers ==> t < nextTimer)
      && timers.Keys == (if timeout.Some? then {timeout.value} else {})
    }

    constructor (wait: int, leading: bool, trailing: bool)
      ensures Valid() && calls == [] && runs == []
      ensures this.wait == wait && this.leading == leading && this.trailing == trailing
      ensures previous == timeout == None && now == 0 && answered == 0
    {
      this.wait, this.leading, this.trailing := wait, leading, trailing;
      previous, timeout, args, timers, nextTimer := None, None, 0, map[], 0;
      now, calls, runs, answered := 0, [], [], 0;
    }

    /** The throttled function is called. */
    method Invoke(time: nat, a: Args)
      requires Valid() && now <= time
      modifies this
      ensures Valid() && now == time && calls == old(calls) + [Call(time, a)] && answered == old(answered)
      // the function runs, and no timer is left, if a wait has passed since `previous`
      ensures var since := if old(previous).Some? then time - old(previous).value else if leading then time else 0;
              && runs == (if since >= wait then old(runs) + [Run(time, a, |calls| - 1)] else old(runs))
              && previous == (if since >= wait || (old(previous).None? && !leading) then Some(time) else old(previous))
              && (since >= wait ==> timers == map[])
              && (since < wait && (old(timeout).Some? || !trailing) ==>
                    timers == old(timers) && timeout == old(timeout))
              && (since < wait && old(timeout).None? && trailing ==>
                    timers == map[old(nextTimer) := time + (wait - since)])
    {
      hide History, Apart, Served, AllPrompt;
      ghost var calls0 := calls;
      CallInHistory(calls, runs, now, Call(time, a));
      now, calls := time, calls + [Call(time, a)];
      if previous.None? && !leading { previous := Some(time); }
      var remaining := wait - (if previous.Some? then time - previous.value else time);
      args := a;
      if remaining <= 0 {
        RunNow(calls0);
      } else {
        if timeout.None? && trailing {
          SetTimeout(time + remaining);
        }
        if leading { CallPrompt(calls0, runs, Call(time, a), runs, wait); }
      }
    }

    /** The branch of a call that runs the function at once. */
    method RunNow(ghost calls0: seq<Call>)
      requires History(calls, runs, now) && Apart(runs, wait) && OneTimer() && answered <= |calls|
      requires calls != [] && calls == calls0 + [Call(now, args)]
      requires Served(runs) < |calls| && (runs != [] ==> now - runs[|runs| - 1].time >= wait)
      requires !leading ==> previous.Some? && answered < |calls|
      requires leading ==> AllPrompt(calls0, runs, wait)
      modifies this`timers, this`timeout, this`previous, this`runs
      ensures Valid() && runs == old(runs) + [Run(now, args, |calls| - 1)] && timers == map[]
      ensures previous == Some(now)
    {
      hide History, Apart, Served, AllPrompt;
      ClearTimeout();
      previous := Some(now);
      Apply();
      if leading { CallPrompt(calls0, old(runs), Call(now, args), runs, wait); }
    }

    /** `func.apply(context, args)`. */
    method Apply()
      requires History(calls, runs, now) && Apart(runs, wait) && calls != [] && args == calls[|calls| - 1].args
      requires Served(runs) < |calls| && (runs != [] ==> now - runs[|runs| - 1].time >= wait)
      modifies this`runs
      ensures History(calls, runs, now) && Apart(runs, wait) && Served(runs) == |calls|
      ensures runs == old(runs) + [Run(now, args, |calls| - 1)]
    {
      hide Apart;
      RunInHistory(calls, runs, now, now);
      ApartSnoc(runs, wait, Run(now, args, |calls| - 1));
      runs := runs + [Run(now, args, |calls| - 1)];
    }

    /** `clearTimeout(timeout); timeout = null`. */
    method ClearTimeout()
      requires OneTimer()
      modifies this`timers, this`timeout
      ensures OneTimer() && timeout == None && timers == map[]
    {
      if timeout.Some? { timers := timers - {timeout.value}; }
      assert timers == map[];
      timeout := None;
    }

    method SetTimeout(due: int)
      requires OneTimer() && timeout.None?
      modifies this`timers, this`timeout, this`nextTimer
      ensures OneTimer() && timeout == Some(old(nextTimer)) && timers == map[old(nextTimer) := due]
    {
      assert timers == map[];
      timeout, timers, nextTimer := Some(nextTimer), timers[nextTimer := due], nextTimer + 1;
    }

    /** Time passes. */
    method Tick(time: nat)
      requires Valid() && now <= time
      modifies this`now
      ensures Valid() && now == time
    {
      TimePasses(calls, runs, now, time);
      hide History, Apart, Served;
      now := time;
    }

    /** A pending timer fires, at the time it is due or later. */
    method Later(time: nat, timer: nat)
      requires Valid() && now <= time && timer in timers && timers[timer] <= time
      modifies this
      ensures Valid() && now == time && calls == old(calls) && timers == map[]
      ensures runs == old(runs) + [Run(time, calls[|calls| - 1].args, |calls| - 1)]
      ensures previous == (if leading then Some(time) else None) && answered == |calls|
    {
      hide History, Apart, Served, AllPrompt;
      timers := timers - {timer};
      assert timers == map[];
      TimePasses(calls, runs, now, time);
      now := time;
      previous := if leading then Some(time) else None;
      timeout := None;
      answered := |calls|;
      Apply();
      StillPrompt(calls, old(runs), runs, wait);
    }
  }

  /** Something that happens some time after what happened before. A timer that is not pending, or not due
      yet, does not fire. */
  datatype Event = Called(after: nat, args: Args) | Fired(after: nat, timer: nat)

  /** How much time the events take. */
  function Elapsed(events: seq<Event>): nat {
    if events == [] then 0 else Elapsed(events[..|events| - 1]) + events[|events| - 1].after
  }

  function CallsIn(events: seq<Event>): seq<Call> {
    if events == [] then []
    else
      var init := CallsIn(events[..|events| - 1]);
      match events[|events| - 1]
      case Called(_, args) => init + [Call(Elapsed(events), args)]
      case Fired(_, _) => init
  }

  lemma EventsSnoc(events: seq<Event>, e: Event)
    ensures Elapsed(events + [e]) == Elapsed(events) + e.after
    ensures CallsIn(events + [e]) ==
            if e.Called? then CallsIn(events) + [Call(Elapsed(events) + e.after, e.args)] else CallsIn(events)
  {
    assert (events + [e])[..|events|] == events;
  }

  /** Any history of calls and timers: the calls are those of the history, any two runs are a wait apart,
      and with trailing runs no call is lost. */
  method RunThrottle(wait: int, leading: bool, trailing: bool, events: seq<Event>) returns (s: Throttle)
    ensures fresh(s) && s.Valid() && s.wait == wait && s.leading == leading && s.trailing == trailing
    ensures s.now == Elapsed(events) && s.calls == CallsIn(events)
    ensures wait >= 0 ==> forall r, q :: 0 <= r < q < |s.runs| ==> s.runs[q].time - s.runs[r].time >= wait
    ensures trailing ==> forall k: nat :: k < |s.calls| ==> Answered(s, k)
    ensures leading ==> AllPrompt(s.calls, s.runs, wait)
    ensures leading ==> forall t :: t in s.timers ==>
              s.timers[t] == (if s.runs == [] then 0 else s.runs[|s.runs| - 1].time) + wait
  {
    hide Throttle.Valid, Elapsed, CallsIn, Answered, AllPrompt;
    s := new Throttle(wait, leading, trailing);
    NoEvents();
    assert events[..0] == [];
    for i := 0 to |events|
      invariant fresh(s) && s.Valid() && s.wait == wait && s.leading == leading && s.trailing == trailing
      invariant s.now == Elapsed(events[..i]) && s.calls == CallsIn(events[..i])
    {
      assert events[..i + 1] == events[..i] + [events[i]];
      EventsSnoc(events[..i], events[i]);
      var time := s.now + events[i].after;
      match events[i]
      case Called(_, args) => s.Invoke(time, args);
      case Fired(_, timer) =>
        if timer in s.timers && s.timers[timer] <= time { s.Later(time, timer); } else { s.Tick(time); }
    }
    assert events[..|events|] == events;
    if wait >= 0 {
      forall r, q | 0 <= r < q < |s.runs| ensures s.runs[q].time - s.runs[r].time >= wait {
        ThrottleKeepsApart(s, r, q);
      }
    }
    if trailing {
      forall k: nat | k < |s.calls| ensures Answered(s, k) { NoCallLost(s, k); }
    }
    if leading { LeadingMeans(s); }
  }

  /** With the leading edge no call is put off without need, and the pending timer is due a wait after the
      last run. */
  lemma LeadingMeans(s: Throttle)
    requires s.Valid() && s.leading
    ensures AllPrompt(s.calls, s.runs, s.wait)
    ensures forall t :: t in s.timers ==>
              s.timers[t] == (if s.runs == [] then 0 else s.runs[|s.runs| - 1].time) + s.wait
  {
  }

  lemma NoEvents()
    ensures Elapsed([]) == 0 && CallsIn([]) == []
  {
  }

  /** Call k has been answered, by a run with its arguments or later ones, or will be, by the pending timer,
      which is due at most a wait after it. */
  ghost predicate Answered(s: Throttle, k: nat)
    requires k < |s.calls|
    reads s
  {
    || (exists i :: 0 <= i < |s.runs| && s.runs[i].call >= k && s.runs[i].time >= s.calls[k].time
                    && s.runs[i].call < |s.calls| && s.runs[i].args == s.calls[s.runs[i].call].args)
    || (exists t :: t in s.timers && s.timers[t] <= s.calls[k].time + s.wait)
  }

  lemma {:induction false} RunsApart(runs: seq<Run>, wait: int, r: nat, q: nat)
    requires Apart(runs, wait) && r < q < |runs| && wait >= 0
    ensures runs[q].time - runs[r].time >= wait
  {
    if r + 1 < q { RunsApart(runs, wait, r, q - 1); }
  }

  /** Whenever it is looked at: any two runs are a wait apart, and at most one timer is pending. */
  lemma ThrottleKeepsApart(s: Throttle, r: nat, q: nat)
    requires s.Valid() && r < q < |s.runs| && s.wait >= 0
    ensures s.runs[q].time - s.runs[r].time >= s.wait
    ensures |s.timers| <= 1
  {
    RunsApart(s.runs, s.wait, r, q);
    assert |s.timers| == |s.timers.Keys|;
  }

  /** With trailing runs, every call has been answered with its arguments or later ones, or will be by
      the pending timer, which is due at most a wait after the call. */
  lemma NoCallLost(s: Throttle, k: nat)
    requires s.Valid() && k < |s.calls| && s.trailing
    ensures Answered(s, k)
  {
    if k < Served(s.runs) {
      var i := |s.runs| - 1;
      assert s.runs[i].call >= k && InHistory(s.calls, s.runs[i]);
    } else {
      assert s.timeout.Some? && s.timeout.value in s.timers;
    }
  }

  /** Without the leading edge, the first call, and the first after a timer's run, never runs the function
      at once. */
  method FirstCallWaits(s: Throttle, time: nat, a: Args)
    requires s.Valid() && s.now <= time && !s.leading && s.wait > 0 && |s.calls| == s.answered
    modifies s
    ensures s.Valid() && s.runs == old(s.runs)
    ensures s.trailing ==> s.timers == map[old(s.nextTimer) := time + s.wait]
  {
    s.Invoke(time, a);
  }

  /** Without the leading edge, a call after a long silence still runs the function at once if the last
      run was that of a call: when the timer was late. */
  method LeadingEdgeAnyway() returns (s: Throttle)
    ensures !s.leading && s.trailing && s.wait == 100
    ensures s.calls == [Call(0, 1), Call(150, 2), Call(10000, 3)]
    ensures s.runs == [Run(150, 2, 1), Run(10000, 3, 2)]
  {
    hide Throttle.Valid;
    s := new Throttle(100, false, true);
    s.Invoke(0, 1);
    s.Invoke(150, 2);
    s.Invoke(10000, 3);
  }

  // ----- debounce -----

  /** In trailing mode a run comes at least a wait after the latest call; in immediate mode it comes
      with a call that follows at least a wait of silence, or with the first. */
  ghost predicate Settled(calls: seq<Call>, run: Run, wait: int, immediate: bool)
    requires run.call < |calls|
  {
    if immediate then
      && run.time == calls[run.call].time
      && (run.call > 0 ==> run.time - calls[run.call - 1].time >= wait)
    else run.time - calls[run.call].time >= wait
  }

  ghost predicate AllSettled(calls: seq<Call>, runs: seq<Run>, wait: int, immediate: bool) {
    forall r :: 0 <= r < |runs| ==> runs[r].call < |calls| && Settled(calls, runs[r], wait, immediate)
  }

  lemma SettledCall(calls: seq<Call>, runs: seq<Run>, wait: int, immediate: bool, call: Call)
    requires AllSettled(calls, runs, wait, immediate)
    ensures AllSettled(calls + [call], runs, wait, immediate)
  {
    forall r | 0 <= r < |runs| ensures Settled(calls + [call], runs[r], wait, immediate) {
      assert Settled(calls, runs[r], wait, immediate);
    }
  }

  lemma SettledRun(calls: seq<Call>, runs: seq<Run>, wait: int, immediate: bool, run: Run)
    requires AllSettled(calls, runs, wait, immediate) && run.call < |calls| && Settled(calls, run, wait, immediate)
    ensures AllSettled(calls, runs + [run], wait, immediate)
  {
  }

  class Debounce {
    const wait: int
    const immediate: bool
    var timeout: Option<nat>
    var args: Args
    var timestamp: nat
    var timers: Timers
    var nextTimer: nat
    var now: nat // the clock
    ghost var calls: seq<Call>
    ghost var runs: seq<Run>

    ghost predicate Valid()
      reads this
    {
      && History(calls, runs, now) && AllSettled(calls, runs, wait, immediate)
      && (calls != [] ==> args == calls[|calls| - 1].args && timestamp == calls[|calls| - 1].time <= now)
      && (forall t :: t in timers ==> t < nextTimer)
      && timers.Keys == (if timeout.Some? then {timeout.value} else {})
      && (timeout.Some? ==> calls != [] && timers[timeout.value] <= timestamp + wait)
      // with no timer pending there has been a wait of silence, or no call at all
      && (timeout.None? && calls != [] ==> now - timestamp >= wait)
      && (!immediate ==> (timeout.None? <==> Served(runs) == |calls|))
      && (immediate ==> (runs == [] <==> calls == []))
    }

    constructor (wait: int, immediate: bool)
      ensures Valid() && calls == [] && runs == [] && now == 0 && this.wait == wait && this.immediate == immediate
    {
      this.wait, this.immediate := wait, immediate;
      timeout, args, timestamp, timers, nextTimer := None, 0, 0, map[], 0;
      now, calls, runs := 0, [], [];
    }

    /** The debounced function is called. */
    method Invoke(time: nat, a: Args)
      requires Valid() && now <= time
      modifies this
      ensures Valid() && now == time && calls == old(calls) + [Call(time, a)]
      ensures runs == if immediate && old(timeout).None? then old(runs) + [Run(time, a, |calls| - 1)] else old(runs)
      ensures timers == if old(timeout).None? then map[old(nextTimer) := time + wait] else old(timers)
    {
      hide History, AllSettled, Served;
      CallInHistory(calls, runs, now, Call(time, a));
      SettledCall(calls, runs, wait, immediate, Call(time, a));
      now, calls := time, calls + [Call(time, a)];
      args := a;
      timestamp := time;
      var callNow := immediate && timeout.None?;
      if timeout.None? {
        SetTimeout(time + wait);
      }
      if callNow { Apply(); }
    }

    /** Time passes. */
    method Tick(time: nat)
      requires Valid() && now <= time
      modifies this`now
      ensures Valid() && now == time
    {
      TimePasses(calls, runs, now, time);
      hide History, AllSettled, Served;
      now := time;
    }

    /** A pending timer fires, at the time it is due or later: the wait starts again if there was a call
        meanwhile. */
    method Later(time: nat, timer: nat)
      requires Valid() && now <= time && timer in timers && timers[timer] <= time
      modifies this
      ensures Valid() && now == time && calls == old(calls)
      ensures var last := time - calls[|calls| - 1].time;
              && (last < wait ==> runs == old(runs) && timers == map[old(nextTimer) := calls[|calls| - 1].time + wait])
              && (last >= wait ==> timers == map[] && timeout == None
                                   && runs == if immediate then old(runs)
                                              else old(runs) + [Run(time, args, |calls| - 1)])
    {
      hide History, AllSettled, Served;
      TimePasses(calls, runs, now, time);
      timers := timers - {timer};
      now := time;
      assert timers == map[];
      var last := time - timestamp;
      if last < wait {
        SetTimeout(time + (wait - last));
      } else {
        timeout := None;
        if !immediate { Apply(); }
      }
    }

    method SetTimeout(due: int)
      modifies this`timers, this`timeout, this`nextTimer
      ensures timeout == Some(old(nextTimer)) && nextTimer == old(nextTimer) + 1
      ensures timers == old(timers)[old(nextTimer) := due]
    {
      timeout, timers, nextTimer := Some(nextTimer), timers[nextTimer := due], nextTimer + 1;
    }

    method Apply()
      requires History(calls, runs, now) && AllSettled(calls, runs, wait, immediate)
      requires calls != [] && args == calls[|calls| - 1].args && Served(runs) < |calls|
      requires Settled(calls, Run(now, args, |calls| - 1), wait, immediate)
      modifies this`runs
      ensures History(calls, runs, now) && AllSettled(calls, runs, wait, immediate) && Served(runs) == |calls|
      ensures runs == old(runs) + [Run(now, args, |calls| - 1)]
    {
      hide AllSettled, Settled;
      RunInHistory(calls, runs, now, now);
      SettledRun(calls, runs, wait, immediate, Run(now, args, |calls| - 1));
      runs := runs + [Run(now, args, |calls| - 1)];
    }
  }

  /** Any history of calls and timers: the calls are those of the history, each run belongs to a burst of its
      own, and in trailing mode the last call is answered. */
  method RunDebounce(wait: int, immediate: bool, events: seq<Event>) returns (s: Debounce)
    ensures fresh(s) && s.Valid() && s.wait == wait && s.immediate == immediate
    ensures s.now == Elapsed(events) && s.calls == CallsIn(events)
    ensures forall r, q :: 0 <= r < q < |s.runs| ==> SilenceBetween(s, r, q)
    ensures !immediate && s.calls != [] ==> LastAnswered(s)
  {
    hide Debounce.Valid, Elapsed, CallsIn, SilenceBetween, LastAnswered;
    s := new Debounce(wait, immediate);
    NoEvents();
    assert events[..0] == [];
    for i := 0 to |events|
      invariant fresh(s) && s.Valid() && s.wait == wait && s.immediate == immediate
      invariant s.now == Elapsed(events[..i]) && s.calls == CallsIn(events[..i])
    {
      assert events[..i + 1] == events[..i] + [events[i]];
      EventsSnoc(events[..i], events[i]);
      var time := s.now + events[i].after;
      match events[i]
      case Called(_, args) => s.Invoke(time, args);
      case Fired(_, timer) =>
        if timer in s.timers && s.timers[timer] <= time { s.Later(time, timer); } else { s.Tick(time); }
    }
    assert events[..|events|] == events;
    forall r, q | 0 <= r < q < |s.runs| ensures SilenceBetween(s, r, q) { OncePerBurst(s, r, q); }
    if !immediate && s.calls != [] { LastCallAnswered(s); }
  }

  /** Runs r and q are a wait apart, and there is a silence of at least a wait between two calls of theirs. */
  ghost predicate SilenceBetween(s: Debounce, r: nat, q: nat)
    requires r < q < |s.runs|
    reads s
  {
    && s.runs[r].call < s.runs[q].call < |s.calls| && s.runs[q].time - s.runs[r].time >= s.wait
    && exists k :: s.runs[r].call <= k < s.runs[q].call && 0 <= k && s.calls[k + 1].time - s.calls[k].time >= s.wait
  }

  /** The last call has been answered, with its own arguments and a wait after it, or a timer is pending. */
  ghost predicate LastAnswered(s: Debounce)
    requires s.calls != []
    reads s
  {
    var last := s.calls[|s.calls| - 1];
    || (s.runs != [] && var run := s.runs[|s.runs| - 1]; run.args == last.args && run.time - last.time >= s.wait)
    || (exists t :: t in s.timers && s.timers[t] <= last.time + s.wait)
  }

  /** One run for each burst: between two runs there is a silence of at least a wait, and the runs are at
      least a wait apart. */
  lemma OncePerBurst(s: Debounce, r: nat, q: nat)
    requires s.Valid() && r < q < |s.runs|
    ensures |s.timers| <= 1
    ensures SilenceBetween(s, r, q)
  {
    assert |s.timers| == |s.timers.Keys|;
    assert InHistory(s.calls, s.runs[r]) && InHistory(s.calls, s.runs[q]);
    assert Settled(s.calls, s.runs[r], s.wait, s.immediate) && Settled(s.calls, s.runs[q], s.wait, s.immediate);
    var k := if s.immediate then s.runs[q].call - 1 else s.runs[r].call;
    assert s.calls[k + 1].time - s.calls[k].time >= s.wait;
  }

  /** In trailing mode the last call has been answered, with its own arguments and a wait after it, or
      will be: a timer is pending, due at most a wait after it. */
  lemma LastCallAnswered(s: Debounce)
    requires s.Valid() && s.calls != [] && !s.immediate
    ensures LastAnswered(s)
  {
    if s.timeout.Some? {
      assert s.timeout.value in s.timers;
    } else {
      var run := s.runs[|s.runs| - 1];
      assert InHistory(s.calls, run) && Settled(s.calls, run, s.wait, s.immediate);
    }
  }
}
