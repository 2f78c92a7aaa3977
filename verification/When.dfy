/** `jQuery.when` over several subordinates: a master deferred that settles with them. */
module When {
  import opened Wrappers
  import opened Callbacks
  import opened Deferred

  /** What has become of an argument of `when`. */
  datatype Sub = Plain(value: int) | Waiting | Resolved(value: int) | Failed

  function Unresolved(subs: seq<Sub>): nat {
    if subs == [] then 0
    else Unresolved(subs[..|subs| - 1]) + (if subs[|subs| - 1].Waiting? || subs[|subs| - 1].Failed? then 1 else 0)
  }

  lemma {:induction false} UnresolvedUpdate(subs: seq<Sub>, i: nat, sub: Sub)
    requires i < |subs| && subs[i].Waiting?
    ensures Unresolved(subs[i := sub]) == Unresolved(subs) - (if sub.Waiting? || sub.Failed? then 0 else 1)
  {
    var last := |subs| - 1;
    if i < last {
      UnresolvedUpdate(subs[..last], i, sub);
      assert subs[i := sub][..last] == subs[..last][i := sub];
    } else {
      assert subs[i := sub][..last] == subs[..last];
    }
  }

  lemma {:induction false} UnresolvedZero(subs: seq<Sub>)
    ensures Unresolved(subs) == 0 <==> forall i :: 0 <= i < |subs| ==> subs[i].Plain? || subs[i].Resolved?
  {
    if subs != [] { UnresolvedZero(subs[..|subs| - 1]); }
  }

  /** The values of the arguments, in argument order; 0 stands for one that is not known. */
  function Values(subs: seq<Sub>): seq<int> {
    seq(|subs|, i requires 0 <= i < |subs| => if subs[i].Plain? || subs[i].Resolved? then subs[i].value else 0)
  }

  /** All arguments are known, and every call had their values, in argument order. */
  ghost predicate CalledWithAll(log: seq<Call>, subs: seq<Sub>) {
    && log != [] && (forall i :: 0 <= i < |subs| ==> subs[i].Plain? || subs[i].Resolved?)
    && forall k :: 0 <= k < |log| ==> |log[k].args| == |subs|
                                      && forall i :: 0 <= i < |subs| ==> log[k].args[i] == subs[i].value
  }

  lemma ValuesMean(subs: seq<Sub>, log: seq<Call>)
    requires AllWith(log, Values(subs)) && forall i :: 0 <= i < |subs| ==> subs[i].Plain? || subs[i].Resolved?
    ensures CalledWithAll(log, subs)
  {
  }

  /** An argument: a plain value, or a deferred as it is when `when` is called, with its latest report of
      progress, which it repeats to new listeners. */
  datatype Arg = PlainArg(value: int) | DeferredArg(now: Now, reported: Option<int>)

  datatype Now = Open | Done(value: int) | Refused(reason: int)

  /** Before the arguments are looked at, only plain values are known. */
  function Begin(args: seq<Arg>): seq<Sub> {
    seq(|args|, i requires 0 <= i < |args| => if args[i].PlainArg? then Plain(args[i].value) else Waiting)
  }

  /** What `when` finds. */
  function Found(arg: Arg): Sub {
    match arg
    case PlainArg(v) => Plain(v)
    case DeferredArg(Open, _) => Waiting
    case DeferredArg(Done(v), _) => Sub.Resolved(v)
    case DeferredArg(Refused(_), _) => Failed
  }

  function Plains(args: seq<Arg>): nat {
    if args == [] then 0 else (if args[0].PlainArg? then 1 else 0) + Plains(args[1..])
  }

  lemma {:induction false} PlainOrUnresolved(args: seq<Arg>)
    ensures Unresolved(Begin(args)) + Plains(args) == |args|
  {
    if args != [] {
      var init, last := args[..|args| - 1], args[|args| - 1];
      PlainOrUnresolved(init);
      PlainsSnoc(init, last);
      assert args == init + [last];
      assert Begin(args)[..|args| - 1] == Begin(init);
    }
  }

  lemma {:induction false} PlainsSnoc(args: seq<Arg>, arg: Arg)
    ensures Plains(args + [arg]) == Plains(args) + (if arg.PlainArg? then 1 else 0)
  {
    if args == [] {
      assert [] + [arg] == [arg] && [arg][1..] == [];
    } else {
      assert (args + [arg])[1..] == args[1..] + [arg];
      PlainsSnoc(args[1..], arg);
    }
  }

  predicate AllWith(log: seq<Call>, args: Args) {
    log != [] && forall k :: 0 <= k < |log| ==> log[k].args == args
  }

  class WhenObject {
    var resolveValues: seq<int>
    var progressValues: seq<int>
    var remaining: int
    const deferred: DeferredObject
    ghost var subs: seq<Sub>

    // how many plain arguments have not been counted yet
    ghost var unseen: nat

    /** While the arguments are being looked at, `remaining` also counts the plain ones still ahead. */
    ghost predicate Counting()
      reads this, deferred, deferred.done, deferred.fail, deferred.progress
    {
      && deferred.Valid()
      && |progressValues| == |subs|
      && resolveValues == Values(subs)
      && remaining == Unresolved(subs) + unseen
      && (if exists i :: 0 <= i < |subs| && subs[i].Failed? then deferred.state == Rejected
          else if remaining == 0 then deferred.state != Rejected
          else deferred.state == Pending)
    }

    ghost predicate Valid()
      reads this, deferred, deferred.done, deferred.fail, deferred.progress
    {
      Counting() && unseen == 0 && (remaining == 0 ==> deferred.state == State.Resolved)
    }

    /** `when`, except for a single deferred, which is then returned itself. */
    constructor (args: seq<Arg>)
      requires |args| == 1 ==> args[0].PlainArg?
      ensures Valid() && fresh(deferred) && fresh(deferred.done) && fresh(deferred.fail) && fresh(deferred.progress)
      ensures |subs| == |args| && forall i :: 0 <= i < |args| ==> subs[i] == Found(args[i])
      ensures remaining == 0 ==> AllWith(deferred.done.log, Values(subs))
    {
      hide Ledger, OneRound, HeadOk, DeferredObject.Valid, DeferredObject.Lists, AllWith;
      var d := new DeferredObject();
      PlainOrUnresolved(args);
      deferred := d;
      progressValues := seq(|args|, _ => 0);
      resolveValues := seq(|args|, i requires 0 <= i < |args| => if args[i].PlainArg? then args[i].value else 0);
      remaining := if |args| == 1 then 0 else |args|;
      subs, unseen := Begin(args), if |args| == 1 then 0 else Plains(args);
      new;
      assert forall i :: 0 <= i < |subs| ==> !subs[i].Failed?;
      if |args| == 1 { OnePlain(args); }
      assert Counting();
      assert |subs| == |args|;
      assert |args| <= 1 ==> unseen == 0;
      assert |args| > 1 ==> unseen == Plains(args);
      assert forall k :: 0 <= k < |args| ==> subs[k] == if args[k].PlainArg? then Plain(args[k].value) else Waiting;
      assert |args| == 1 ==> subs[0] == Found(args[0]);
      hide Values, Unresolved, Plains, Begin, Counting, Found;
      if |args| > 1 { AttachAll(args); }
      Conclude();
    }

    /** The loop of `when` over its arguments. */
    method AttachAll(args: seq<Arg>)
      requires Counting() && unseen == Plains(args) && |subs| == |args|
      requires forall k :: 0 <= k < |args| ==> subs[k] == if args[k].PlainArg? then Plain(args[k].value) else Waiting
      requires deferred.state != State.Resolved
      modifies this`resolveValues, this`progressValues, this`remaining, this`subs, this`unseen
      modifies deferred, deferred.done, deferred.fail, deferred.progress
      ensures Counting() && unseen == 0 && |subs| == |args| && forall i :: 0 <= i < |args| ==> subs[i] == Found(args[i])
      ensures deferred.state == State.Resolved ==> AllWith(deferred.done.log, Values(subs))
    {
      hide Values, Unresolved, Plains, Begin, Counting, AllWith;
      assert args[0..] == args;
      for i := 0 to |args|
        invariant Counting() && unseen == Plains(args[i..]) && |subs| == |args|
        invariant forall k :: 0 <= k < |args| ==>
                    subs[k] == if k < i then Found(args[k])
                               else if args[k].PlainArg? then Plain(args[k].value) else Waiting
        invariant deferred.state == State.Resolved ==> remaining == 0 && AllWith(deferred.done.log, Values(subs))
      {
        PlainsNext(args, i);
        match args[i]
        case PlainArg(v) => CountPlain();
        case DeferredArg(now, reported) => Attach(i, now, reported);
      }
      NoneAhead(args);
    }

    /** All arguments have been looked at: with nothing to wait for, the master is resolved. */
    method Conclude()
      requires Counting() && unseen == 0
      requires deferred.state == State.Resolved ==> AllWith(deferred.done.log, Values(subs))
      modifies deferred, deferred.done, deferred.fail, deferred.progress
      ensures Valid() && (remaining == 0 ==> AllWith(deferred.done.log, Values(subs)))
    {
      hide Ledger, OneRound, HeadOk;
      UnresolvedZero(subs);
      if remaining == 0 {
        deferred.Resolve(resolveValues);
      }
    }

    method CountPlain()
      requires Counting() && unseen > 0
      modifies this`remaining, this`unseen
      ensures Counting() && unseen == old(unseen) - 1 && remaining == old(remaining) - 1
      ensures old(remaining) > 0 && deferred.state != State.Resolved
    {
      remaining, unseen := remaining - 1, unseen - 1;
    }

    /** The listeners are attached to argument i, a deferred; what has happened to it already comes at
        once. */
    method Attach(i: nat, now: Now, reported: Option<int>)
      requires Counting() && i < |subs| && subs[i].Waiting?
      modifies this`resolveValues, this`progressValues, this`remaining, this`subs
      modifies deferred, deferred.done, deferred.fail, deferred.progress
      ensures Counting() && subs == old(subs)[i := Found(DeferredArg(now, reported))]
      ensures deferred.state == State.Resolved ==>
                remaining == 0 && AllWith(deferred.done.log, Values(subs))
    {
      hide Counting, Valid, AllWith, Values, Unresolved;
      StillOpen(this, i);
      assert subs[i := Waiting] == subs;
      match now {
        case Open =>
        case Done(v) => SubordinateDone(i, v);
        case Refused(reason) => SubordinateFail(i, reason);
      }
      if reported.Some? { SubordinateProgress(i, reported.value); }
    }

    /** Subordinate i is resolved. Its callback list calls this at most once. */
    method SubordinateDone(i: nat, value: int)
      requires Counting() && i < |subs| && subs[i].Waiting?
      modifies this`resolveValues, this`remaining, this`subs, deferred, deferred.done, deferred.fail, deferred.progress
      ensures Counting() && (unseen == 0 ==> Valid()) && subs == old(subs)[i := Sub.Resolved(value)]
      // the last one settles the master, with all values in argument order
      ensures remaining == 0 ==> old(deferred.state).Pending? && deferred.state == State.Resolved
      ensures remaining == 0 ==> AllWith(deferred.done.log, Values(subs))
      ensures remaining == 0 ==> CalledWithAll(deferred.done.log, subs)
      ensures remaining != 0 ==> deferred.state == old(deferred.state) && deferred.done.log == old(deferred.done.log)
      ensures deferred.fail.log == old(deferred.fail.log)
    {
      hide Ledger, OneRound, HeadOk, CalledWithAll;
      UnresolvedUpdate(subs, i, Sub.Resolved(value));
      UnresolvedZero(subs);
      ghost var subs0 := subs;
      subs := subs[i := Sub.Resolved(value)];
      UnresolvedZero(subs);
      resolveValues := resolveValues[i := value];
      remaining := remaining - 1;
      SameFailures(subs0, subs, i);
      if remaining == 0 {
        deferred.Resolve(resolveValues);
        ValuesMean(subs, deferred.done.log);
      }
    }

    /** Subordinate i is rejected: the first rejection rejects the master. */
    method SubordinateFail(i: nat, value: int)
      requires Counting() && i < |subs| && subs[i].Waiting?
      modifies this`subs, deferred, deferred.done, deferred.fail, deferred.progress
      ensures Counting() && (unseen == 0 ==> Valid()) && subs == old(subs)[i := Failed] && deferred.state == Rejected
      ensures deferred.done.log == []
      ensures old(deferred.state).Pending? ==> AllWith(deferred.fail.log, [value])
      ensures !old(deferred.state).Pending? ==> deferred.fail.log == old(deferred.fail.log)
    {
      hide Ledger, OneRound, HeadOk;
      UnresolvedUpdate(subs, i, Failed);
      UnresolvedZero(subs);
      subs := subs[i := Failed];
      assert subs[i].Failed?;
      deferred.Reject([value]);
    }

    /** Subordinate i reports progress, now or earlier if it is repeated to the new listener, which is
        passed on with the latest report of every subordinate. */
    method SubordinateProgress(i: nat, value: int)
      requires Counting() && i < |subs| && !subs[i].Plain?
      modifies this`progressValues, deferred.progress
      ensures Counting() && (old(Valid()) ==> Valid()) && progressValues == old(progressValues)[i := value]
      ensures !deferred.state.Pending? ==> deferred.progress.log == old(deferred.progress.log)
      ensures deferred.state.Pending? && !old(deferred.progress.firing) ==>
                deferred.progress.RoundFrom(old(deferred.progress.list.value), 0, progressValues, true,
                                            old(deferred.progress.log), old(deferred.progress.stack))
    {
      hide Ledger, OneRound, HeadOk;
      progressValues := progressValues[i := value];
      deferred.Notify(progressValues);
    }
  }

  lemma StillOpen(w: WhenObject, i: nat)
    requires w.Counting() && i < |w.subs| && w.subs[i].Waiting?
    ensures w.deferred.state != State.Resolved
  {
    UnresolvedZero(w.subs);
  }

  lemma OnePlain(args: seq<Arg>)
    requires |args| == 1 && args[0].PlainArg?
    ensures Unresolved(Begin(args)) == 0
  {
    PlainOrUnresolved(args);
    assert args[1..] == [];
  }

  lemma NoneAhead(args: seq<Arg>)
    ensures Plains(args[|args|..]) == 0
  {
  }

  lemma PlainsNext(args: seq<Arg>, i: nat)
    requires i < |args|
    ensures Plains(args[i..]) == Plains(args[i + 1..]) + (if args[i].PlainArg? then 1 else 0)
  {
    assert args[i..][1..] == args[i + 1..];
  }

  lemma SameFailures(subs: seq<Sub>, subs': seq<Sub>, i: nat)
    requires i < |subs| == |subs'| && subs[i].Waiting? && subs' == subs[i := subs'[i]] && !subs'[i].Failed?
    ensures (exists k :: 0 <= k < |subs| && subs[k].Failed?) <==> (exists k :: 0 <= k < |subs'| && subs'[k].Failed?)
  {
    if k :| 0 <= k < |subs| && subs[k].Failed? { assert subs'[k].Failed?; }
    if k :| 0 <= k < |subs'| && subs'[k].Failed? { assert subs[k].Failed?; }
  }

  /** The master resolves exactly when all subordinates have, and is rejected as soon as one is. */
  lemma MasterFollows(w: WhenObject)
    requires w.Valid()
    ensures w.deferred.state == State.Resolved
            <==> forall i :: 0 <= i < |w.subs| ==> w.subs[i].Plain? || w.subs[i].Resolved?
    ensures w.deferred.state == Rejected <==> exists i :: 0 <= i < |w.subs| && w.subs[i].Failed?
  {
    UnresolvedZero(w.subs);
  }

  /** The call has the value of each argument, in the order of the arguments. */
  predicate HasValues(call: Call, args: seq<Arg>) {
    && |call.args| == |args|
    && forall i :: 0 <= i < |args| ==>
         match args[i]
         case PlainArg(v) => call.args[i] == v
         case DeferredArg(now, _) => now == Done(call.args[i])
  }

  lemma AllGiven(args: seq<Arg>, subs: seq<Sub>, log: seq<Call>)
    requires |args| == |subs| && forall i :: 0 <= i < |args| ==> subs[i] == Found(args[i])
    requires forall i :: 0 <= i < |subs| ==> subs[i].Plain? || subs[i].Resolved?
    requires AllWith(log, Values(subs))
    ensures log != [] && forall call :: call in log ==> HasValues(call, args)
  {
    ValuesMean(subs, log);
    forall k | 0 <= k < |log| ensures HasValues(log[k], args) {
      assert forall i :: 0 <= i < |subs| ==> log[k].args[i] == subs[i].value;
    }
  }

  /** `when`: a single deferred is handed back itself, otherwise a master is made. */
  method CallWhen(args: seq<Arg>, subordinate: DeferredObject) returns (master: DeferredObject)
    ensures |args| == 1 && args[0].DeferredArg? ==> master == subordinate
    ensures !(|args| == 1 && args[0].DeferredArg?) ==>
              && fresh(master) && master.Valid()
              && (master.state == State.Resolved <==>
                    forall i :: 0 <= i < |args| ==> args[i].PlainArg? || args[i].now.Done?)
              && (master.state == Rejected <==>
                    exists i :: 0 <= i < |args| && args[i].DeferredArg? && args[i].now.Refused?)
              // the functions of a resolved master are called with all values, in the order of the arguments
              && (master.state == State.Resolved ==>
                    master.done.log != [] && forall call :: call in master.done.log ==> HasValues(call, args))
  {
    hide DeferredObject.Valid, Values, Unresolved;
    if |args| == 1 && args[0].DeferredArg? {
      master := subordinate;
    } else {
      var w := new WhenObject(args);
      MasterFollows(w);
      assert forall i :: 0 <= i < |args| ==> w.subs[i] == Found(args[i]);
      master := w.deferred;
      if master.state == State.Resolved { AllGiven(args, w.subs, master.done.log); }
    }
  }
}
