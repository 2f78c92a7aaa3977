/** `jQuery.Deferred` and `jQuery.when`, built on callback lists. */
module Deferred {
  import opened Wrappers
  import opened Callbacks

  datatype State = Pending | Resolved | Rejected

  /** The functions that a deferred itself puts at the head of its two final lists. */
  const SET_STATE := 0
  const DISABLE_OTHER := 1
  const LOCK_PROGRESS := 2

  const FINAL := Options(true, true, false, false)
  const REPEATED := Options(false, true, false, false)

  predicate HeadOk(l: seq<Entry>) {
    |l| >= 3 && l[0].fn == SET_STATE && l[1].fn == DISABLE_OTHER && l[2].fn == LOCK_PROGRESS
  }

  /** The calls of a round over l that has just gone past the three internal functions. */
  function Opening(l: seq<Entry>, args: Args): seq<Call>
    requires HeadOk(l)
  {
    [Call(l[0], args), Call(l[1], args), Call(l[2], args)] + (if |l| > 3 then [Call(l[3], args)] else [])
  }

  lemma HeadAdded()
    ensures var l := Added([], [SET_STATE, DISABLE_OTHER, LOCK_PROGRESS], false, 0);
            |l| == 3 && HeadOk(l)
  {
    var fns := [SET_STATE, DISABLE_OTHER, LOCK_PROGRESS];
    var e0, e1, e2 := Entry(SET_STATE, 0), Entry(DISABLE_OTHER, 1), Entry(LOCK_PROGRESS, 2);
    assert fns[0..] == fns && fns[3..] == [];
    AddedStep([], fns, 0, false, 0);
    AddedStep([e0], fns, 1, false, 1);
    AddedStep([e0] + [e1], fns, 2, false, 2);
    assert [] + [e0] == [e0];
    assert Added([], fns, false, 0) == [e0] + ([e1] + ([e2] + []));
  }

  /** A list for "done" or "fail", with its internal functions. */
  method FinalList() returns (c: CallbackList)
    ensures fresh(c) && c.Valid() && c.options == FINAL && c.B().InOrder()
    ensures !c.fired && !c.firing && c.log == [] && c.list.Some? && |c.list.value| == 3 && HeadOk(c.list.value)
  {
    hide Ledger, OneRound, Added, QueueOf;
    HeadAdded();
    c := new CallbackList(FINAL);
    c.Add([SET_STATE, DISABLE_OTHER, LOCK_PROGRESS]);
  }

  function Longer(l: seq<Entry>, fns: seq<nat>, serial: nat): seq<Entry> {
    l + Added(l, fns, false, serial)
  }

  class DeferredObject {
    var state: State
    const done: CallbackList
    const fail: CallbackList
    const progress: CallbackList

    ghost predicate Lists()
      reads this, done, fail, progress
    {
      && done != fail && done != progress && fail != progress
      && done.Valid() && fail.Valid() && progress.Valid()
      && done.options == FINAL && fail.options == FINAL && progress.options == REPEATED
      && done.B().InOrder() && fail.B().InOrder()
    }

    ghost predicate Valid()
      reads this, done, fail, progress
    {
      && Lists()
      && match state
         case Pending =>
           Waiting(done) && Waiting(fail) && progress.stack.Some? && (progress.fired ==> progress.memory.Some?)
         case Resolved => Won(done) && Lost(fail) && Closed(progress)
         case Rejected => Won(fail) && Lost(done) && Closed(progress)
    }

    ghost predicate Waiting(c: CallbackList)
      reads c
    {
      !c.fired && !c.firing && c.log == [] && c.list.Some? && HeadOk(c.list.value)
    }

    ghost predicate Won(c: CallbackList)
      reads c
    {
      c.fired && c.list.Some? && c.memory.Some?
    }

    ghost predicate Lost(c: CallbackList)
      reads c
    {
      !c.fired && !c.firing && c.log == [] && c.list.None?
    }

    /** No further `notify` has any effect. */
    ghost predicate Closed(c: CallbackList)
      reads c
    {
      c.stack.None? && (c.list.None? || c.fired)
    }

    constructor ()
      ensures Valid() && fresh(done) && fresh(fail) && fresh(progress)
      ensures state == Pending
      ensures |done.list.value| == |fail.list.value| == 3
      ensures progress.list == Some([]) && progress.log == [] && !progress.fired && !progress.firing
    {
      hide Ledger, OneRound, QueueOf, Books.InOrder, Books.Intact, HeadOk, Serials;
      state := Pending;
      var d := FinalList();
      var f := FinalList();
      var p := new CallbackList(REPEATED);
      done, fail, progress := d, f, p;
      new;
    }

    // ----- settling -----

    /** `resolve`. */
    method Resolve(args: Args)
      requires Valid()
      modifies this, done, fail, progress
      ensures Valid() && fail.log == old(fail.log) && progress.log == old(progress.log)
      ensures old(state).Pending? ==> state == Resolved && done.log == Opening(old(done.list.value), args)
      ensures !old(state).Pending? ==> state == old(state) && done.log == old(done.log)
    {
      hide Ledger, OneRound;
      ghost var l := done.list;
      done.FireWith(args);
      if state.Pending? {
        RunInternals(done, fail, Resolved, l.value, args);
      }
    }

    /** `reject`. */
    method Reject(args: Args)
      requires Valid()
      modifies this, done, fail, progress
      ensures Valid() && done.log == old(done.log) && progress.log == old(progress.log)
      ensures old(state).Pending? ==> state == Rejected && fail.log == Opening(old(fail.list.value), args)
      ensures !old(state).Pending? ==> state == old(state) && fail.log == old(fail.log)
    {
      hide Ledger, OneRound;
      ghost var l := fail.list;
      fail.FireWith(args);
      if state.Pending? {
        RunInternals(fail, done, Rejected, l.value, args);
      }
    }

    /** The three internal functions at the head of the winning list: the state is set, the other list
        disabled and notifications closed before any other function is called. */
    method RunInternals(winner: CallbackList, loser: CallbackList, final: State, ghost l: seq<Entry>, ghost args: Args)
      requires Lists() && ((winner == done && loser == fail) || (winner == fail && loser == done))
      requires HeadOk(l) && winner.Called(l, 0, args, [], None) && winner.memory.Some? && Waiting(loser)
      modifies this, done, fail, progress
      ensures Lists() && state == final && Won(winner) && Lost(loser) && Closed(progress)
      ensures winner.log == Opening(l, args) && progress.log == old(progress.log)
    {
      hide Books.InOrder, Books.Queue, Serials;
      state := final;
      winner.Return(false);
      loser.DisableList();
      CloseProgress(winner, loser, l, args);
    }

    /** The last of the internal functions: the second returns, notifications are closed, the others follow. */
    method CloseProgress(winner: CallbackList, loser: CallbackList, ghost l: seq<Entry>, ghost args: Args)
      requires Lists() && ((winner == done && loser == fail) || (winner == fail && loser == done))
      requires HeadOk(l) && winner.Called(l, 1, args, [Call(l[0], args)], None) && winner.memory.Some? && Lost(loser)
      modifies winner, progress
      ensures Lists() && Won(winner) && Closed(progress)
      ensures winner.log == Opening(l, args) && progress.log == old(progress.log)
    {
      hide Books.InOrder, Books.Queue, Serials;
      winner.Return(false);
      assert winner.Called(l, 2, args, [Call(l[0], args), Call(l[1], args)], None);
      progress.Lock();
      winner.Return(false);
    }

    /** `notify`. */
    method Notify(args: Args)
      requires Valid()
      modifies progress
      ensures Valid() && state == old(state)
      ensures !state.Pending? ==> progress.Unchanged(old(progress.list), old(progress.log), old(progress.stack))
      // while pending: all progress functions are called, or will be when the current round is over, and the
      // report is remembered
      ensures state.Pending? && !old(progress.firing) ==>
                && progress.RoundFrom(old(progress.list.value), 0, args, true, old(progress.log), old(progress.stack))
                && progress.memory == Some(args)
      ensures state.Pending? && old(progress.firing) ==>
                progress.Unchanged(old(progress.list), old(progress.log), Some(old(progress.stack.value) + [args]))
    {
      progress.FireWith(args);
    }

    // ----- listening -----

    /** `done`. */
    method Done(fns: seq<nat>)
      requires Valid()
      modifies done
      ensures Valid() && state == old(state)
      ensures state.Rejected? ==> done.log == []
      // before the deferred is resolved, or while the listeners are called: they wait for their turn
      ensures state.Pending? || (state.Resolved? && old(done.firing)) ==>
                done.log == old(done.log) && done.list == Some(Longer(old(done.list.value), fns, old(done.serial)))
      // afterwards: they are called at once, with the values of the resolution
      ensures state.Resolved? && !old(done.firing) ==>
                done.RoundFrom(Longer(old(done.list.value), fns, old(done.serial)), |old(done.list.value)|,
                               old(done.memory.value), true, old(done.log), old(done.stack))
    {
      hide Ledger, OneRound, Added;
      done.Add(fns);
    }

    /** `fail`. */
    method Fail(fns: seq<nat>)
      requires Valid()
      modifies fail
      ensures Valid() && state == old(state)
      ensures state.Resolved? ==> fail.log == []
      ensures state.Pending? || (state.Rejected? && old(fail.firing)) ==>
                fail.log == old(fail.log) && fail.list == Some(Longer(old(fail.list.value), fns, old(fail.serial)))
      ensures state.Rejected? && !old(fail.firing) ==>
                fail.RoundFrom(Longer(old(fail.list.value), fns, old(fail.serial)), |old(fail.list.value)|,
                               old(fail.memory.value), true, old(fail.log), old(fail.stack))
    {
      hide Ledger, OneRound, Added;
      fail.Add(fns);
    }

    /** `progress`. */
    method Progress(fns: seq<nat>)
      requires Valid()
      modifies progress
      ensures Valid() && state == old(state)
      // before the first report, or during one: they wait for their turn
      ensures state.Pending? && old(progress.firing || !progress.fired) ==>
                && progress.log == old(progress.log) && progress.firing == old(progress.firing)
                && progress.fired == old(progress.fired) && progress.memory == old(progress.memory)
                && progress.list == Some(Longer(old(progress.list.value), fns, old(progress.serial)))
      // afterwards: they are called at once, with the latest report
      ensures state.Pending? && !old(progress.firing || !progress.fired) ==>
                progress.RoundFrom(Longer(old(progress.list.value), fns, old(progress.serial)),
                                   |old(progress.list.value)|,
                                   old(progress.memory.value), true, old(progress.log), old(progress.stack))
    {
      hide Ledger, OneRound, Added;
      progress.Add(fns);
    }

    /** A listener that was being called returns. */
    method ListenerReturns(c: CallbackList, returnedFalse: bool)
      requires Valid() && c in {done, fail, progress} && c.firing
      modifies c
      ensures Valid() && state == old(state)
      ensures (c == done ==> state == Resolved) && (c == fail ==> state == Rejected)
      // the next listener is called, or what was reported or settled with stays remembered
      ensures old(c.list.Some?) ==> c.RoundFrom(old(c.list.value), old(c.firingIndex) + 1, old(c.data),
                                                old(c.memory.Some?), old(c.log), old(c.stack))
      ensures old(c.memory.Some?) && old(c.stack) in {None, Some([])} ==> c.memory == old(c.memory)
    {
      hide Ledger, OneRound;
      c.Return(returnedFalse);
    }
  }

  /** Listeners of both kinds are never called. */
  lemma NeverBoth(d: DeferredObject)
    requires d.Valid()
    ensures d.done.log == [] || d.fail.log == []
    ensures d.state.Pending? ==> d.done.log == [] && d.fail.log == []
  {
  }

  lemma AddedOne(l: seq<Entry>, fn: nat, serial: nat)
    ensures Longer(l, [fn], serial) == l + [Entry(fn, serial)]
  {
    AddedStep(l, [fn], 0, false, serial);
    assert [fn][0..] == [fn] && [fn][1..] == [];
    assert Added(l + [Entry(fn, serial)], [], false, serial + 1) == [];
  }

  /** A listener that comes after a report is called with it at once. */
  method LateListener(f: nat, g: nat, report: Args) returns (d: DeferredObject)
    ensures d.Valid() && d.state.Pending?
    ensures |d.progress.log| == 2 && d.progress.log[1].entry.fn == g && d.progress.log[1].args == report
  {
    hide Ledger, OneRound, Books.InOrder, Longer;
    d := new DeferredObject();
    AddedOne([], f, d.progress.serial);
    d.Progress([f]);
    d.Notify(report);
    assert |d.progress.log| == 1;
    d.ListenerReturns(d.progress, false);
    AddedOne(d.progress.list.value, g, d.progress.serial);
    d.Progress([g]);
  }
}
