/** Whole schedules of the job scheduler: what a schedule leads to, and that jobs get finished. */
module Schedules {
  import opened Wrappers
  import opened Scheduler

  /** What a schedule leads to from w. */
  function PlayedFrom(w: World, schedule: seq<Act>): World {
    if schedule == [] then w
    else AfterAct(PlayedFrom(w, schedule[..|schedule| - 1]), schedule[|schedule| - 1])
  }

  function Played(schedule: seq<Act>): World {
    PlayedFrom(START, schedule)
  }

  lemma PlayedSnoc(w: World, schedule: seq<Act>, act: Act)
    ensures PlayedFrom(w, schedule + [act]) == AfterAct(PlayedFrom(w, schedule), act)
  {
    assert (schedule + [act])[..|schedule|] == schedule;
  }

  lemma {:induction false} PlayedOn(w: World, front: seq<Act>, rest: seq<Act>)
    ensures PlayedFrom(w, front + rest) == PlayedFrom(PlayedFrom(w, front), rest)
  {
    hide AfterAct;
    if rest == [] {
      assert front + rest == front;
    } else {
      var init, last := rest[..|rest| - 1], rest[|rest| - 1];
      PlayedOn(w, front, init);
      PlayedSnoc(w, front + init, last);
      assert front + init + [last] == front + rest && init + [last] == rest;
    }
  }

  /** Whatever the schedule, the scheduler does what its acts say, one by one. No job object is on its way
      twice if no two `submit` calls have the same one. */
  method Run(schedule: seq<Act>) returns (s: JobScheduler)
    ensures fresh(s) && s.Valid() && s.W() == Played(schedule)
    ensures s.accepted == s.completed + s.Held() + s.jobQueue
    ensures !SubmitsTwice(schedule) ==> !s.shared
  {
    hide JobScheduler.Valid, JobScheduler.Pending, AfterAct, PlayedFrom;
    s := new JobScheduler();
    NothingPlayed(START);
    assert schedule[..0] == [];
    for i := 0 to |schedule|
      invariant fresh(s) && s.Valid() && s.W() == Played(schedule[..i])
      invariant forall j :: j in s.idOf ==> SetsId(j) in schedule[..i]
      invariant s.shared ==> SubmitsTwice(schedule[..i])
    {
      assert schedule[..i + 1] == schedule[..i] + [schedule[i]];
      PlayedSnoc(START, schedule[..i], schedule[i]);
      PendingHaveIds(s);
      TwiceSnoc(schedule[..i], schedule[i]);
      IdsAfter(s.W(), schedule[i]);
      s.Perform(schedule[i]);
    }
    assert schedule[..|schedule|] == schedule;
    InOnePlace(s);
  }

  lemma NothingPlayed(w: World)
    ensures PlayedFrom(w, []) == w
  {
  }

  lemma IdsAfter(w: World, act: Act)
    ensures AfterAct(w, act).idOf.Keys == if act.SetsId? then w.idOf.Keys + {act.job} else w.idOf.Keys
  {
  }

  /** Two `submit` calls have the same job object. */
  predicate SubmitsTwice(schedule: seq<Act>) {
    exists i, j :: 0 <= i < j < |schedule| && schedule[i].SetsId? && schedule[i] == schedule[j]
  }

  lemma TwiceSnoc(schedule: seq<Act>, act: Act)
    ensures SubmitsTwice(schedule) ==> SubmitsTwice(schedule + [act])
    ensures act.SetsId? && act in schedule ==> SubmitsTwice(schedule + [act])
  {
    var more := schedule + [act];
    assert more[|schedule|] == act && forall i :: 0 <= i < |schedule| ==> more[i] == schedule[i];
    if act.SetsId? && act in schedule {
      var i :| 0 <= i < |schedule| && schedule[i] == act;
      assert more[i] == more[|schedule|];
    }
  }

  // ----- what every schedule keeps -----

  function Held(w: World): seq<Job> {
    if w.pc in {Taken, Announced, Polling, Sleeping, Done} || (w.pc == Ended && w.runningJob.Some?)
    then [w.job] else []
  }

  /** Every accepted job is in one place, in order, and jobs in a place have ids; there is one runner for
      each job finished or waited for. */
  ghost predicate Sound(w: World) {
    && w.accepted == w.completed + Held(w) + w.queue
    && (forall j :: j in Held(w) + w.queue || j in w.submitting ==> j in w.idOf)
    && (w.pc in {Polling, Sleeping, Done} ==> |w.runners| == |w.completed| + 1)
    && (w.pc in {Unstarted, AtTake, Taken, Announced, Recorded} ==> |w.runners| == |w.completed|)
    && (w.pc == Recorded ==> w.completed != [])
    && (w.pc != Ended ==> (w.runningJob.Some? <==> w.pc in {Announced, Polling, Sleeping, Done, Recorded}))
  }

  lemma SoundAct(w: World, act: Act)
    requires Sound(w)
    ensures Sound(AfterAct(w, act))
  {
    match act
    case SetsId(j) => SoundSubmit(w, act);
    case Offers(j) => SoundSubmit(w, act);
    case GivesUp(j) => SoundSubmit(w, act);
    case Steps => SoundStep(w);
    case _ => hide Put, Joined, Left, ThreadStep;
  }

  lemma SoundSubmit(w: World, act: Act)
    requires Sound(w) && (act.SetsId? || act.Offers? || act.GivesUp?)
    ensures Sound(AfterAct(w, act))
  {
    hide ThreadStep;
    if act.Offers? && act.job in w.submitting {
      assert w.completed + Held(w) + w.queue + [act.job] == w.completed + Held(w) + (w.queue + [act.job]);
    }
  }

  lemma SoundStep(w: World)
    requires Sound(w)
    ensures Sound(ThreadStep(w))
  {
    hide Put;
    if w.pc == AtTake && w.queue != [] { assert w.queue == [w.queue[0]] + w.queue[1..]; }
    if w.pc == Done { SoundFinish(w); }
  }

  lemma SoundFinish(w: World)
    requires Sound(w) && w.pc == Done
    ensures w.job in w.idOf && Sound(ThreadStep(w))
  {
    hide Put;
    assert w.job in Held(w) + w.queue;
    assert w.completed + [w.job] + w.queue == (w.completed + [w.job]) + [] + w.queue;
  }

  lemma {:induction false} SoundAlways(w: World, schedule: seq<Act>)
    requires Sound(w)
    ensures Sound(PlayedFrom(w, schedule))
  {
    if schedule != [] {
      SoundAlways(w, schedule[..|schedule| - 1]);
      SoundAct(PlayedFrom(w, schedule[..|schedule| - 1]), schedule[|schedule| - 1]);
    }
  }

  // ----- jobs get finished -----

  /** How far the thread is from an idle queue, not counting how often it looks at its runner. */
  function ToDo(w: World): nat {
    8 * |w.queue| +
    match w.pc
    case Unstarted | AtTake | Ended => 0
    case Taken => 6
    case Announced => 5
    case Polling | Sleeping => 4
    case Done => 3
    case Recorded => 2
  }

  function StepsIn(schedule: seq<Act>): nat {
    if schedule == [] then 0
    else StepsIn(schedule[..|schedule| - 1]) + (if schedule[|schedule| - 1].Steps? then 1 else 0)
  }

  predicate Watches(w: World) {
    w.pc in {Polling, Sleeping}
  }

  /** A running thread that nobody stops. */
  ghost predicate Going(w: World) {
    Sound(w) && !w.interrupted && w.pc !in {Unstarted, Ended}
  }

  /** No job is offered and `stop` is not called. */
  predicate Calm(schedule: seq<Act>) {
    forall a :: a in schedule ==> !a.Stops? && !a.Offers?
  }

  /** One act brings the thread nearer to its goal, or leaves it where it is: looking at its runner, or not
      taking a step. */
  ghost predicate Moves(v: World, w: World) {
    && Going(w) && w.accepted == v.accepted
    && (ToDo(w) < ToDo(v)
        || (ToDo(w) == ToDo(v) && |w.runners| == |v.runners| && (w.pc == v.pc || (Watches(w) && Watches(v)))
            && (Watches(v) && !LastAlive(v) ==> !LastAlive(w))))
  }

  lemma DoneHasId(w: World)
    requires Sound(w)
    ensures w.pc == Done ==> w.job in w.idOf
  {
    if w.pc == Done { assert w.job in Held(w) + w.queue; }
  }

  lemma OneStep(w: World)
    requires Going(w)
    ensures Moves(w, ThreadStep(w))
    ensures ToDo(w) > 0 && !Watches(w) ==> ToDo(ThreadStep(w)) < ToDo(w)
    ensures w.pc == Polling && !LastAlive(w) ==> ToDo(ThreadStep(w)) < ToDo(w)
    ensures w.pc == Sleeping ==> ThreadStep(w).pc == Polling
  {
    SoundStep(w);
    DoneHasId(w);
    hide Put, Sound;
  }

  lemma EndMoves(w: World, i: nat)
    requires Going(w)
    ensures Moves(w, AfterAct(w, Ends(i))) && AfterAct(w, Ends(i)).pc == w.pc
    ensures i == |w.runners| - 1 ==> !LastAlive(AfterAct(w, Ends(i)))
  {
    SoundAct(w, Ends(i));
    hide Sound;
  }

  lemma IdleMove(w: World, act: Act)
    requires Going(w) && (act.SetsId? || act.GivesUp? || act.Starts?)
    ensures Moves(w, AfterAct(w, act)) && AfterAct(w, act).pc == w.pc
  {
    SoundAct(w, act);
    var v := AfterAct(w, act);
    assert v.pc == w.pc && v.queue == w.queue && v.runners == w.runners && v.accepted == w.accepted
           && v.interrupted == w.interrupted;
    hide Sound, AfterAct;
  }

  lemma OtherMove(w: World, act: Act)
    requires Going(w) && !act.Steps? && !act.Stops? && !act.Offers?
    ensures Moves(w, AfterAct(w, act)) && AfterAct(w, act).pc == w.pc
    ensures act.Ends? && act.runner == |w.runners| - 1 ==> !LastAlive(AfterAct(w, act))
  {
    if act.Ends? { EndMoves(w, act.runner); } else { IdleMove(w, act); }
    hide Moves, Going, AfterAct;
  }

  lemma OneMove(w: World, act: Act)
    requires Going(w) && !act.Stops? && !act.Offers?
    ensures Moves(w, AfterAct(w, act))
  {
    if act.Steps? { OneStep(w); } else { OtherMove(w, act); }
    hide Moves, ThreadStep, Going;
  }

  lemma MovesOn(u: World, v: World, w: World)
    requires Moves(u, v) && Moves(v, w)
    ensures Moves(u, w)
  {
  }

  lemma {:induction false} CalmMoves(w: World, schedule: seq<Act>)
    requires Going(w) && Calm(schedule)
    ensures Moves(w, PlayedFrom(w, schedule))
  {
    hide AfterAct, Going, ToDo;
    if schedule != [] {
      var init, last := schedule[..|schedule| - 1], schedule[|schedule| - 1];
      CalmMoves(w, init);
      MovesGoing(w, PlayedFrom(w, init));
      OneMove(PlayedFrom(w, init), last);
      MovesOn(w, PlayedFrom(w, init), PlayedFrom(w, schedule));
    } else {
      MovesNot(w);
    }
    hide Moves;
  }

  lemma MovesNot(w: World)
    requires Going(w)
    ensures Moves(w, w)
  {
  }

  lemma MovesGoing(v: World, w: World)
    requires Moves(v, w)
    ensures Going(w) && w.accepted == v.accepted && ToDo(w) <= ToDo(v)
    ensures ToDo(w) == ToDo(v) ==>
              && |w.runners| == |v.runners| && (w.pc == v.pc || (Watches(w) && Watches(v)))
              && (Watches(v) && !LastAlive(v) ==> !LastAlive(w))
  {
  }

  /** A thread that does not look at a runner gets nearer with any step. */
  lemma {:induction false} StepHelps(w: World, schedule: seq<Act>)
    requires Going(w) && Calm(schedule) && !Watches(w) && ToDo(w) > 0 && StepsIn(schedule) > 0
    ensures ToDo(PlayedFrom(w, schedule)) < ToDo(w)
  {
    hide AfterAct, Going, ToDo, Moves, ThreadStep;
    var init, last := schedule[..|schedule| - 1], schedule[|schedule| - 1];
    var v := PlayedFrom(w, init);
    CalmMoves(w, init);
    MovesGoing(w, v);
    if last.Steps? {
      OneStep(v);
      StepIsAct(v);
    } else {
      StepHelps(w, init);
    }
    OneMove(v, last);
    MovesGoing(v, PlayedFrom(w, schedule));
  }

  lemma StepIsAct(w: World)
    ensures AfterAct(w, Steps) == ThreadStep(w)
  {
  }

  /** A thread that looks at a runner finds it dead, or gets nearer, after the runner has ended. */
  lemma {:induction false} EndIsSeen(w: World, schedule: seq<Act>)
    requires Going(w) && Calm(schedule) && Watches(w) && w.runners != [] && Ends(|w.runners| - 1) in schedule
    ensures var v := PlayedFrom(w, schedule); ToDo(v) < ToDo(w) || (Watches(v) && !LastAlive(v))
  {
    hide AfterAct, Going, ToDo, Moves, ThreadStep;
    var init, last := schedule[..|schedule| - 1], schedule[|schedule| - 1];
    assert schedule == init + [last];
    var v := PlayedFrom(w, init);
    CalmMoves(w, init);
    MovesGoing(w, v);
    OneMove(v, last);
    MovesGoing(v, PlayedFrom(w, schedule));
    if last == Ends(|w.runners| - 1) {
      if ToDo(v) == ToDo(w) { OtherMove(v, last); }
    } else {
      EndIsSeen(w, init);
    }
  }

  /** Two steps of a thread whose runner is dead bring it nearer. */
  lemma {:induction false} DeadHelps(w: World, schedule: seq<Act>)
    requires Going(w) && Calm(schedule) && Watches(w) && !LastAlive(w)
    ensures StepsIn(schedule) == 1 ==>
              ToDo(PlayedFrom(w, schedule)) < ToDo(w) || PlayedFrom(w, schedule).pc == Polling
    ensures StepsIn(schedule) >= 2 ==> ToDo(PlayedFrom(w, schedule)) < ToDo(w)
  {
    hide AfterAct, Going, ToDo, Moves, ThreadStep;
    if schedule != [] {
      var init, last := schedule[..|schedule| - 1], schedule[|schedule| - 1];
      var v := PlayedFrom(w, init);
      CalmMoves(w, init);
      MovesGoing(w, v);
      DeadHelps(w, init);
      OneMove(v, last);
      MovesGoing(v, PlayedFrom(w, schedule));
      if last.Steps? {
        OneStep(v);
        StepIsAct(v);
      } else {
        OtherMove(v, last);
      }
    }
  }

  /** The first n runners end, those that have been started, and then the thread gets two steps or more. */
  predicate Sweep(schedule: seq<Act>, n: nat) {
    && Calm(schedule)
    && exists k :: 0 <= k <= |schedule| && StepsIn(schedule[k..]) >= 2
                   && forall r: nat :: r < n ==> Ends(r) in schedule[..k]
  }

  lemma SweepHelps(w: World, schedule: seq<Act>, n: nat)
    requires Going(w) && |w.accepted| <= n && Sweep(schedule, n)
    ensures Moves(w, PlayedFrom(w, schedule))
    ensures ToDo(w) > 0 ==> ToDo(PlayedFrom(w, schedule)) < ToDo(w)
  {
    hide AfterAct, ToDo, Moves;
    CalmMoves(w, schedule);
    var k :| 0 <= k <= |schedule| && StepsIn(schedule[k..]) >= 2
             && forall r: nat :: r < n ==> Ends(r) in schedule[..k];
    var first, rest := schedule[..k], schedule[k..];
    assert schedule == first + rest;
    assert Calm(first) && Calm(rest);
    PlayedOn(w, first, rest);
    var v := PlayedFrom(w, first);
    CalmMoves(w, first);
    MovesGoing(w, v);
    CalmMoves(v, rest);
    MovesGoing(v, PlayedFrom(v, rest));
    hide PlayedFrom, Going, StepsIn, ThreadStep;
    if ToDo(w) > 0 && ToDo(v) == ToDo(w) {
      if Watches(w) {
        RunnersBound(w);
        EndIsSeen(w, first);
        DeadHelps(v, rest);
      } else {
        StepHelps(v, rest);
      }
    }
  }

  lemma RunnersBound(w: World)
    requires Going(w)
    ensures |w.runners| <= |w.accepted| && (Watches(w) ==> w.runners != [])
    ensures ToDo(w) <= 8 * |w.accepted|
    ensures ToDo(w) == 0 ==> w.queue == [] && w.completed == w.accepted
  {
  }

  function Concat(parts: seq<seq<Act>>): seq<Act> {
    if parts == [] then [] else Concat(parts[..|parts| - 1]) + parts[|parts| - 1]
  }

  lemma {:induction false} SweepsHelp(w: World, sweeps: seq<seq<Act>>)
    requires Going(w) && forall i :: 0 <= i < |sweeps| ==> Sweep(sweeps[i], |w.accepted|)
    ensures Moves(w, PlayedFrom(w, Concat(sweeps)))
    ensures ToDo(PlayedFrom(w, Concat(sweeps))) <= if |sweeps| <= ToDo(w) then ToDo(w) - |sweeps| else 0
  {
    hide AfterAct, ToDo, Moves, Going, Sweep;
    if sweeps == [] {
      MovesNot(w);
    } else {
      var init, last := sweeps[..|sweeps| - 1], sweeps[|sweeps| - 1];
      var v := PlayedFrom(w, Concat(init));
      SweepsHelp(w, init);
      MovesGoing(w, v);
      SweepHelps(v, last, |w.accepted|);
      MovesOn(w, v, PlayedFrom(v, last));
      MovesGoing(v, PlayedFrom(v, last));
      PlayedOn(w, Concat(init), last);
    }
  }

  lemma NotStopped(w: World, act: Act)
    requires Sound(w) && !w.interrupted && w.pc != Ended && act != Stops
    ensures var v := AfterAct(w, act);
            !v.interrupted && v.pc != Ended && (w.pc != Unstarted || act == Starts ==> v.pc != Unstarted)
  {
    DoneHasId(w);
    hide Sound, Put, Joined, Left;
  }

  lemma {:induction false} KeepsGoing(schedule: seq<Act>)
    requires Stops !in schedule
    ensures var w := Played(schedule); Sound(w) && !w.interrupted && w.pc != Ended
    ensures Starts in schedule ==> Going(Played(schedule))
  {
    if schedule != [] {
      var init, last := schedule[..|schedule| - 1], schedule[|schedule| - 1];
      assert schedule == init + [last];
      KeepsGoing(init);
      SoundAct(Played(init), last);
      NotStopped(Played(init), last);
      hide Sound, AfterAct;
    }
  }

  /** Without `stop`, every accepted job gets finished, in order, however the steps of submitters, thread and
      runners are mixed, if again and again the runners that have been started end and the thread gets two
      steps: eight times for each job is enough. */
  lemma AllGetFinished(front: seq<Act>, sweeps: seq<seq<Act>>)
    requires Stops !in front && Starts in front
    requires var n := |Played(front).accepted|;
             |sweeps| >= 8 * n && forall i :: 0 <= i < |sweeps| ==> Sweep(sweeps[i], n)
    ensures var w := Played(front + Concat(sweeps));
            w.completed == w.accepted == Played(front).accepted && w.queue == []
  {
    var w := Played(front);
    KeepsGoing(front);
    RunnersBound(w);
    SweepsHelp(w, sweeps);
    PlayedOn(START, front, Concat(sweeps));
    var v := PlayedFrom(w, Concat(sweeps));
    MovesGoing(w, v);
    RunnersBound(v);
    hide *;
  }

  // ----- stopping -----

  /** How many steps a thread that has been interrupted takes at most. */
  function StepsToEnd(pc: Pc): nat {
    match pc
    case Unstarted | Ended => 0
    case AtTake | Sleeping => 1
    case Recorded => 2
    case Done => 3
    case Polling => 4
    case Announced => 5
    case Taken => 6
  }

  lemma OneStepToEnd(w: World, act: Act)
    requires Sound(w) && w.pc != Unstarted && (w.interrupted || w.pc == Ended)
    ensures var v := AfterAct(w, act);
            && Sound(v) && v.pc != Unstarted && (v.interrupted || v.pc == Ended)
            && StepsToEnd(v.pc) <= StepsToEnd(w.pc)
            && (act.Steps? && w.pc != Ended ==> StepsToEnd(v.pc) < StepsToEnd(w.pc))
            && |v.completed| + (if v.pc in {Ended, Recorded, AtTake} then 0 else 1)
               <= |w.completed| + (if w.pc in {Ended, Recorded, AtTake} then 0 else 1)
  {
    SoundAct(w, act);
    DoneHasId(w);
    hide Sound, Put, Joined, Left;
  }

  lemma StopInterrupts(w: World)
    requires Sound(w) && w.pc !in {Unstarted, Ended}
    ensures var v := AfterAct(w, Stops);
            Sound(v) && v.interrupted && v.pc == w.pc && v.completed == w.completed
    ensures w.pc in {AtTake, Recorded} ==> Held(w) == []
    ensures w.pc !in {AtTake, Recorded} ==> |Held(w)| == 1
  {
    SoundAct(w, Stops);
    hide Sound, ThreadStep;
  }

  /** After `stop` the thread ends, whatever else happens, as soon as it has had six steps; at most the job it
      held is still finished. */
  lemma StopEnds(front: seq<Act>, rest: seq<Act>)
    requires Played(front).pc !in {Unstarted, Ended}
    ensures var v, w := Played(front), Played(front + [Stops] + rest);
            && (StepsIn(rest) >= 6 ==> w.pc == Ended)
            && |w.completed| <= |v.completed| + |Held(v)|
  {
    hide PlayedFrom, Sound, AfterAct, Held, StepsIn;
    NothingPlayed(START);
    SoundAtFirst();
    SoundAlways(START, front);
    PlayedSnoc(START, front, Stops);
    StopInterrupts(Played(front));
    PlayedOn(START, front + [Stops], rest);
    Interrupted(Played(front + [Stops]), rest);
  }

  lemma SoundAtFirst()
    ensures Sound(START)
  {
  }

  lemma {:induction false} Interrupted(w: World, rest: seq<Act>)
    requires Sound(w) && w.pc != Unstarted && (w.interrupted || w.pc == Ended)
    ensures var v := PlayedFrom(w, rest);
            && Sound(v) && v.pc != Unstarted && (v.interrupted || v.pc == Ended)
            && StepsToEnd(v.pc) <= (if StepsIn(rest) <= StepsToEnd(w.pc) then StepsToEnd(w.pc) - StepsIn(rest) else 0)
            && |v.completed| + (if v.pc in {Ended, Recorded, AtTake} then 0 else 1)
               <= |w.completed| + (if w.pc in {Ended, Recorded, AtTake} then 0 else 1)
  {
    hide AfterAct, Sound;
    if rest != [] {
      Interrupted(w, rest[..|rest| - 1]);
      OneStepToEnd(PlayedFrom(w, rest[..|rest| - 1]), rest[|rest| - 1]);
    }
  }

  // ----- records -----

  function RecordsOf(jobs: seq<Job>, idOf: map<Job, nat>): seq<Record>
    requires forall j :: j in jobs ==> j in idOf
  {
    seq(|jobs|, i requires 0 <= i < |jobs| => Record(idOf[jobs[i]], jobs[i]))
  }

  ghost predicate HaveIds(w: World) {
    && OwnId(w.idOf)
    && (forall j :: j in w.idOf ==> w.idOf[j] <= w.idTracker)
    && (forall j :: j in w.accepted || j in w.submitting ==> j in w.idOf)
    && (forall j :: j in w.completed ==> j in w.accepted)
  }

  /** No job object is submitted twice. */
  ghost predicate AllDifferent(w: World) {
    && (forall i, k :: 0 <= i < k < |w.accepted| ==> w.accepted[i] != w.accepted[k])
    && (forall j :: j in w.submitting ==> w.submitting[j] == 1 && j !in w.accepted)
  }

  ghost predicate InRecords(w: World) {
    HaveIds(w) && AllDifferent(w) && w.finished == RecordsOf(w.completed, w.idOf)
  }

  lemma NewIdRecorded(w: World, j: Job)
    requires InRecords(w) && j !in w.idOf
    ensures InRecords(AfterAct(w, SetsId(j)))
  {
    hide ThreadStep;
    var v := AfterAct(w, SetsId(j));
    assert forall i :: i in w.submitting ==> v.submitting[i] == w.submitting[i];
    assert RecordsOf(v.completed, v.idOf) == RecordsOf(w.completed, w.idOf);
  }

  lemma OfferRecorded(w: World, act: Act)
    requires InRecords(w) && (act.Offers? || act.GivesUp?)
    ensures InRecords(AfterAct(w, act))
  {
    OfferHasIds(w, act);
    OfferDifferent(w, act);
    hide RecordsOf, HaveIds, AllDifferent, ThreadStep, Joined, Left;
  }

  lemma OfferHasIds(w: World, act: Act)
    requires HaveIds(w) && (act.Offers? || act.GivesUp?)
    ensures HaveIds(AfterAct(w, act))
  {
    hide ThreadStep, OwnId;
    LeftMeans(w.submitting, act.job);
    hide Left;
  }

  lemma OfferDifferent(w: World, act: Act)
    requires AllDifferent(w) && (act.Offers? || act.GivesUp?)
    ensures AllDifferent(AfterAct(w, act))
  {
    hide ThreadStep;
    LeftMeans(w.submitting, act.job);
    assert w.submitting[act.job] == 1 ==> act.job !in Left(w.submitting, act.job);
    assert forall j :: j in Left(w.submitting, act.job) && j != act.job ==>
                         Left(w.submitting, act.job)[j] == w.submitting[j];
    hide Left;
  }

  /** What the records depend on. */
  lemma SameInRecords(w: World, v: World)
    requires InRecords(w)
    requires v.idOf == w.idOf && v.idTracker == w.idTracker && v.submitting == w.submitting
    requires v.accepted == w.accepted && v.completed == w.completed && v.finished == w.finished
    ensures InRecords(v)
  {
    hide RecordsOf, OwnId;
  }

  lemma StepRecorded(w: World)
    requires Sound(w) && InRecords(w)
    ensures InRecords(ThreadStep(w))
  {
    if w.pc == Done {
      DoneHasId(w);
      FinishRecorded(w);
      FinishKeepsRecords(w);
    } else {
      var v := ThreadStep(w);
      assert v.idOf == w.idOf && v.idTracker == w.idTracker && v.submitting == w.submitting
             && v.accepted == w.accepted && v.completed == w.completed && v.finished == w.finished by {
        hide InRecords, Sound, Put;
      }
      SameInRecords(w, v);
    }
    hide *;
  }

  lemma FinishKeepsRecords(w: World)
    requires InRecords(w) && w.pc == Done && w.job in w.idOf && w.job in w.accepted
    requires Put(w.finished, w.idOf[w.job], w.job) == RecordsOf(w.completed + [w.job], w.idOf)
    ensures InRecords(ThreadStep(w))
  {
    hide Put, RecordsOf, OwnId;
  }

  lemma FinishRecorded(w: World)
    requires Sound(w) && InRecords(w) && w.pc == Done && w.job in w.idOf
    ensures w.job in w.accepted
    ensures Put(w.finished, w.idOf[w.job], w.job) == RecordsOf(w.completed + [w.job], w.idOf)
  {
    NotRecordedYet(w);
    PutNew(w.finished, w.idOf[w.job], w.job);
    assert w.accepted[|w.completed|] == w.job;
    assert RecordsOf(w.completed + [w.job], w.idOf)
        == RecordsOf(w.completed, w.idOf) + [Record(w.idOf[w.job], w.job)];
    hide Put, OwnId;
  }

  lemma NotRecordedYet(w: World)
    requires Sound(w) && InRecords(w) && w.pc == Done && w.job in w.idOf
    ensures w.idOf[w.job] !in Keys(w.finished)
  {
    var n := |w.completed|;
    assert w.accepted[n] == w.job;
    forall r | r in w.finished ensures r.id != w.idOf[w.job] {
      var i :| 0 <= i < n && w.finished[i] == r;
      assert w.accepted[i] == w.completed[i] && w.completed[i] in w.completed;
    }
  }

  /** If no two `submit` calls have the same job object, each finished job has one record, under its own id,
      in the order in which the jobs were accepted. */
  lemma {:induction false} EachRecorded(schedule: seq<Act>)
    requires !SubmitsTwice(schedule)
    ensures Sound(Played(schedule)) && InRecords(Played(schedule))
    ensures forall j :: j in Played(schedule).idOf ==> SetsId(j) in schedule
  {
    if schedule != [] {
      var init, last := schedule[..|schedule| - 1], schedule[|schedule| - 1];
      assert schedule == init + [last];
      TwiceSnoc(init, last);
      EachRecorded(init);
      var w := Played(init);
      SoundAct(w, last);
      IdsAfter(w, last);
      match last
      case SetsId(j) => NewIdRecorded(w, j);
      case Offers(j) => OfferRecorded(w, last);
      case GivesUp(j) => OfferRecorded(w, last);
      case Steps => StepRecorded(w); StepIsAct(w);
      case _ => SameRecords(w, last);
      hide Sound, InRecords, AfterAct, ThreadStep;
    }
  }

  lemma SameRecords(w: World, act: Act)
    requires InRecords(w) && (act.Starts? || act.Stops? || act.Ends?)
    ensures InRecords(AfterAct(w, act))
  {
    hide ThreadStep, RecordsOf, OwnId;
  }
}
