/** The job scheduler as interleaved steps of submitters, the scheduler thread, the runner threads and
    whoever calls `stop`. */
module Scheduler {
  import opened Wrappers

  /** A job object; the same object can be submitted more than once. */
  type Job = nat

  /** One entry of `finishedJobs`, a map that keeps the order of insertion. */
  datatype Record = Record(id: nat, job: Job)

  datatype Runner = Runner(job: Job, alive: bool, interrupted: bool)

  /** Where the scheduler thread is. */
  datatype Pc =
    | Unstarted
    | AtTake      // about to take, or waiting in `take`
    | Taken       // has a job, before `runningJob = job`
    | Announced   // before creating and starting the runner
    | Polling     // about to ask whether the runner is alive
    | Sleeping
    | Done        // the runner is dead, before `finishedJobs.put`
    | Recorded    // before `runningJob = null`
    | Ended

  // ----- lists -----

  function Jobs(runners: seq<Runner>): (r: seq<Job>)
    ensures |r| == |runners| && forall i :: 0 <= i < |r| ==> r[i] == runners[i].job
  {
    seq(|runners|, i requires 0 <= i < |runners| => runners[i].job)
  }

  function Keys(finished: seq<Record>): set<nat> {
    set r | r in finished :: r.id
  }

  /** `put`: an entry with the same key keeps its place and gets the new value. */
  function Put(finished: seq<Record>, id: nat, job: Job): seq<Record> {
    if finished == [] then [Record(id, job)]
    else if finished[0].id == id then [Record(id, job)] + finished[1..]
    else [finished[0]] + Put(finished[1..], id, job)
  }

  lemma {:induction false} PutNew(finished: seq<Record>, id: nat, job: Job)
    requires id !in Keys(finished)
    ensures Put(finished, id, job) == finished + [Record(id, job)]
  {
    if finished != [] {
      assert finished[0] in finished;
      assert Keys(finished[1..]) <= Keys(finished);
      PutNew(finished[1..], id, job);
    }
  }

  lemma {:induction false} PutKeys(finished: seq<Record>, id: nat, job: Job)
    ensures Keys(Put(finished, id, job)) == Keys(finished) + {id}
    ensures id in Keys(finished) ==> |Put(finished, id, job)| == |finished|
  {
    var put := Put(finished, id, job);
    if finished != [] {
      assert finished == [finished[0]] + finished[1..];
      assert Keys(finished) == {finished[0].id} + Keys(finished[1..]);
      if finished[0].id == id {
        assert Keys(put) == {id} + Keys(finished[1..]);
      } else {
        PutKeys(finished[1..], id, job);
        assert Keys(put) == {finished[0].id} + Keys(Put(finished[1..], id, job));
      }
    }
  }

  /** An entry with the id gets the new job, in its place. */
  lemma {:induction false} PutFound(finished: seq<Record>, i: nat, job: Job)
    requires i < |finished| && forall k :: 0 <= k < i ==> finished[k].id != finished[i].id
    ensures Put(finished, finished[i].id, job) == finished[i := Record(finished[i].id, job)]
  {
    if i > 0 {
      PutFound(finished[1..], i - 1, job);
      assert finished == [finished[0]] + finished[1..];
    }
  }

  /** `finishedJobs` after the given jobs have been recorded one after the other. */
  function PutAll(finished: seq<Record>, jobs: seq<Job>, idOf: map<Job, nat>): seq<Record>
    requires forall j :: j in jobs ==> j in idOf
    decreases |jobs|
  {
    if jobs == [] then finished
    else PutAll(Put(finished, idOf[jobs[0]], jobs[0]), jobs[1..], idOf)
  }

  /** No job is listed twice, and none has been recorded under the id it has. */
  predicate Unrecorded(finished: seq<Record>, jobs: seq<Job>, idOf: map<Job, nat>)
    requires forall j :: j in jobs ==> j in idOf
  {
    && (forall i, k :: 0 <= i < k < |jobs| ==> jobs[i] != jobs[k])
    && (forall j :: j in jobs ==> idOf[j] !in Keys(finished))
  }

  predicate OwnId(idOf: map<Job, nat>) {
    forall i, j :: i in idOf && j in idOf && i != j ==> idOf[i] != idOf[j]
  }

  /** Every job gets an entry of its own if and only if none is recorded and none comes twice. */
  lemma {:induction false} PutAllSize(finished: seq<Record>, jobs: seq<Job>, idOf: map<Job, nat>)
    requires OwnId(idOf) && forall j :: j in jobs ==> j in idOf
    ensures |finished| <= |PutAll(finished, jobs, idOf)| <= |finished| + |jobs|
    ensures |PutAll(finished, jobs, idOf)| == |finished| + |jobs| <==> Unrecorded(finished, jobs, idOf)
    decreases |jobs|
  {
    if jobs != [] {
      var j, rest := jobs[0], jobs[1..];
      var put := Put(finished, idOf[j], j);
      assert jobs == [j] + rest;
      PutAllSize(put, rest, idOf);
      PutKeys(finished, idOf[j], j);
      if idOf[j] !in Keys(finished) { PutNew(finished, idOf[j], j); }
      UnrecordedFirst(finished, put, j, rest, idOf);
      hide Put, Keys, Unrecorded, OwnId;
    }
  }

  lemma UnrecordedFirst(finished: seq<Record>, put: seq<Record>, j: Job, rest: seq<Job>, idOf: map<Job, nat>)
    requires OwnId(idOf) && j in idOf && forall i :: i in rest ==> i in idOf
    requires Keys(put) == Keys(finished) + {idOf[j]}
    ensures forall i :: i in [j] + rest ==> i in idOf
    ensures Unrecorded(finished, [j] + rest, idOf) <==> idOf[j] !in Keys(finished) && Unrecorded(put, rest, idOf)
  {
    hide Keys;
    var jobs := [j] + rest;
    assert forall k :: 0 <= k < |rest| ==> jobs[k + 1] == rest[k];
    assert jobs[0] in jobs;
    assert forall i :: i in rest ==> i in jobs;
  }

  // ----- the program -----

  /** Everything there is at one moment. `accepted` and `completed` are the jobs in the order in which they
      entered the queue, and in which they were recorded. */
  datatype World = World(
    idTracker: nat, idOf: map<Job, nat>, submitting: multiset<Job>, queue: seq<Job>, accepted: seq<Job>,
    pc: Pc, job: Job, runningJob: Option<Job>, interrupted: bool, runners: seq<Runner>,
    finished: seq<Record>, completed: seq<Job>)

  const START := World(0, map[], multiset{}, [], [], Unstarted, 0, None, false, [], [], [])

  /** What can happen: the two halves of `submit`, `start`, `stop`, a step of the scheduler thread, the end of
      a runner. */
  datatype Act = SetsId(job: Job) | Offers(job: Job) | GivesUp(job: Job) | Starts | Stops | Steps | Ends(runner: nat)

  function LastAlive(w: World): bool {
    w.runners != [] && w.runners[|w.runners| - 1].alive
  }

  /** `catch (InterruptedException e)`. */
  function Caught(w: World): World {
    w.(pc := Ended, interrupted := false,
       runners := if w.runners == [] then [] else
                    var last := |w.runners| - 1;
                    w.runners[last := w.runners[last].(interrupted := true)])
  }

  /** The next step of `JobSchedulerThread.run`. */
  function ThreadStep(w: World): World {
    match w.pc
    case Unstarted | Ended => w
    case AtTake =>
      if w.interrupted then Caught(w)
      else if w.queue == [] then w
      else w.(job := w.queue[0], queue := w.queue[1..], pc := Taken)
    case Taken => w.(runningJob := Some(w.job), pc := Announced)
    case Announced => w.(runners := w.runners + [Runner(w.job, true, false)], pc := Polling)
    case Polling => w.(pc := if LastAlive(w) then Sleeping else Done)
    case Sleeping => if w.interrupted then Caught(w) else w.(pc := Polling)
    case Done =>
      if w.job !in w.idOf then w
      else w.(finished := Put(w.finished, w.idOf[w.job], w.job), completed := w.completed + [w.job], pc := Recorded)
    case Recorded => w.(runningJob := None, pc := AtTake)
  }

  lemma CatchIsStep(w: World)
    ensures w.pc in {AtTake, Sleeping} && w.interrupted ==> ThreadStep(w) == Caught(w)
  {
  }

  /** One step of anyone; a step that cannot be taken does nothing. */
  function AfterAct(w: World, act: Act): World {
    match act
    case SetsId(j) =>
      w.(idTracker := w.idTracker + 1, idOf := w.idOf[j := w.idTracker + 1], submitting := Joined(w.submitting, j))
    case Offers(j) =>
      if j !in w.submitting then w
      else w.(submitting := Left(w.submitting, j), queue := w.queue + [j], accepted := w.accepted + [j])
    case GivesUp(j) => if j in w.submitting then w.(submitting := Left(w.submitting, j)) else w
    case Starts => if w.pc == Unstarted then w.(pc := AtTake) else w
    case Stops => if w.pc in {Unstarted, Ended} then w else w.(interrupted := true)
    case Steps => ThreadStep(w)
    case Ends(i) => if i < |w.runners| then w.(runners := w.runners[i := w.runners[i].(alive := false)]) else w
  }

  // ----- the invariant -----

  /** The jobs between `submit` and `put`. */
  ghost function OnTheirWay(queue: seq<Job>, held: seq<Job>, submitting: multiset<Job>): multiset<Job> {
    multiset(queue) + multiset(held) + submitting
  }

  function Joined(m: multiset<Job>, j: Job): multiset<Job> {
    m + multiset{j}
  }

  function Left(m: multiset<Job>, j: Job): multiset<Job> {
    m - multiset{j}
  }

  lemma JoinedLeft(m: multiset<Job>, j: Job)
    ensures j in Joined(m, j) && Left(Joined(m, j), j) == m
  {
  }

  lemma LeftMeans(m: multiset<Job>, j: Job)
    ensures forall i :: i in Left(m, j) ==> i in m && (m[j] == 1 ==> i != j) && Left(m, j)[i] <= m[i]
  {
  }

  lemma QueueSteps(queue: seq<Job>, held: seq<Job>, submitting: multiset<Job>, j: Job)
    ensures OnTheirWay(queue, held, Joined(submitting, j)) == Joined(OnTheirWay(queue, held, submitting), j)
    ensures j in submitting ==>
              && OnTheirWay(queue, held, Left(submitting, j)) == Left(OnTheirWay(queue, held, submitting), j)
              && OnTheirWay(queue + [j], held, Left(submitting, j)) == OnTheirWay(queue, held, submitting)
  {
    if j in submitting { assert multiset(queue + [j]) == multiset(queue) + multiset{j}; }
  }

  lemma HeldSteps(queue: seq<Job>, submitting: multiset<Job>, j: Job)
    ensures OnTheirWay(queue, [j], submitting) == OnTheirWay([j] + queue, [], submitting)
    ensures OnTheirWay(queue, [], submitting) == Left(OnTheirWay(queue, [j], submitting), j)
    ensures j in OnTheirWay(queue, [j], submitting)
  {
    assert multiset([j] + queue) == multiset{j} + multiset(queue);
  }

  /** The jobs between `submit` and `put` have ids; as long as no job object is on its way twice at the
      same time, they are their own, and `finishedJobs` lists what was completed. */
  ghost predicate RecordsOk(shared: bool, idOf: map<Job, nat>, idTracker: nat, finished: seq<Record>,
                            pending: multiset<Job>, completed: seq<Job>) {
    && (forall j :: j in pending ==> j in idOf)
    && OwnId(idOf)
    && (forall j :: j in idOf ==> idOf[j] <= idTracker)
    && (forall k :: k in Keys(finished) ==> k <= idTracker)
    && (!shared ==>
          && (forall j :: j in pending ==> pending[j] == 1 && idOf[j] !in Keys(finished))
          && (forall i, j :: 0 <= i < j < |finished| ==> finished[i].id != finished[j].id)
          && |finished| == |completed|
          && forall i :: 0 <= i < |completed| ==> finished[i].job == completed[i])
  }

  lemma SetIdRecords(shared: bool, idOf: map<Job, nat>, idTracker: nat, finished: seq<Record>,
                     pending: multiset<Job>, completed: seq<Job>, j: Job)
    requires RecordsOk(shared, idOf, idTracker, finished, pending, completed)
    ensures RecordsOk(shared || j in pending, idOf[j := idTracker + 1], idTracker + 1, finished,
                      Joined(pending, j), completed)
  {
  }

  lemma FewerRecords(shared: bool, idOf: map<Job, nat>, idTracker: nat, finished: seq<Record>,
                     pending: multiset<Job>, completed: seq<Job>, j: Job)
    requires RecordsOk(shared, idOf, idTracker, finished, pending, completed)
    ensures RecordsOk(shared, idOf, idTracker, finished, Left(pending, j), completed)
  {
  }

  lemma FinishRecords(shared: bool, idOf: map<Job, nat>, idTracker: nat, finished: seq<Record>,
                      pending: multiset<Job>, completed: seq<Job>, j: Job)
    requires RecordsOk(shared, idOf, idTracker, finished, pending, completed) && j in pending
    ensures j in idOf
    ensures RecordsOk(shared, idOf, idTracker, Put(finished, idOf[j], j), Left(pending, j), completed + [j])
    ensures idOf[j] !in Keys(finished) ==> Put(finished, idOf[j], j) == finished + [Record(idOf[j], j)]
    ensures |Put(finished, idOf[j], j)| == |finished| <==> idOf[j] in Keys(finished)
    ensures !shared ==> idOf[j] !in Keys(finished)
  {
    assert forall i :: 0 <= i < |finished| ==> finished[i].id in Keys(finished);
    PutKeys(finished, idOf[j], j);
    LeftMeans(pending, j);
    if idOf[j] !in Keys(finished) { PutNew(finished, idOf[j], j); }
    hide Put, Left, Keys, OwnId;
  }

  /** Runner i ran the i-th accepted job; only the last runner can be alive, and only until its job is
      recorded. `waiting` tells whether the scheduler thread is waiting for it. */
  ghost predicate RunnersOk(runners: seq<Runner>, accepted: seq<Job>, completed: seq<Job>, waiting: bool) {
    && |runners| == |completed| + (if waiting then 1 else 0)
    && |runners| <= |accepted| && Jobs(runners) == accepted[..|runners|]
    && forall i :: 0 <= i < |completed| ==> !runners[i].alive
  }

  lemma AcceptedGrows(runners: seq<Runner>, accepted: seq<Job>, completed: seq<Job>, waiting: bool,
                      held: seq<Job>, queue: seq<Job>, j: Job)
    requires RunnersOk(runners, accepted, completed, waiting) && accepted == completed + held + queue
    ensures RunnersOk(runners, accepted + [j], completed, waiting) && accepted + [j] == completed + held + (queue + [j])
  {
    assert (accepted + [j])[..|runners|] == accepted[..|runners|];
  }

  class JobScheduler {
    var idTracker: nat
    var jobQueue: seq<Job>
    var finishedJobs: seq<Record>
    var runningJob: Option<Job>
    // the `id` fields of the job objects
    var idOf: map<Job, nat>
    // `submit` calls between `setId` and `offer`
    var submitting: multiset<Job>
    // the scheduler thread: its place, its `job`, its interrupt flag, and every runner it made
    var pc: Pc
    var job: Job
    var interrupted: bool
    var runners: seq<Runner>
    // the jobs in the order in which they entered the queue, and in which they were recorded as finished
    ghost var accepted: seq<Job>
    ghost var completed: seq<Job>
    // some job object was submitted while an earlier submission of it was still on its way
    ghost var shared: bool

    ghost function W(): World
      reads this
    {
      World(idTracker, idOf, submitting, jobQueue, accepted, pc, job, runningJob, interrupted, runners,
            finishedJobs, completed)
    }

    /** The job that the scheduler thread holds. */
    function Held(): (h: seq<Job>)
      reads this
    {
      if pc in {Taken, Announced, Polling, Sleeping, Done} || (pc == Ended && runningJob.Some?)
      then [job] else []
    }

    ghost function Pending(): multiset<Job>
      reads this
    {
      OnTheirWay(jobQueue, Held(), submitting)
    }

    predicate Waiting()
      reads this
    {
      pc in {Polling, Sleeping, Done} || (pc == Ended && runningJob.Some?)
    }

    ghost predicate Valid()
      reads this
    {
      && accepted == completed + Held() + jobQueue
      && RunnersOk(runners, accepted, completed, Waiting())
      && (pc == Done ==> !runners[|completed|].alive)
      && (pc != Ended ==> (runningJob.Some? <==> pc in {Announced, Polling, Sleeping, Done, Recorded}))
      && (runningJob.Some? ==> runningJob == Some(job))
      && RecordsOk(shared, idOf, idTracker, finishedJobs, Pending(), completed)
    }

    constructor ()
      ensures Valid() && accepted == completed == jobQueue == [] && finishedJobs == [] && idTracker == 0
      ensures pc == Unstarted && !interrupted && !shared && idOf == map[] && submitting == multiset{}
      ensures W() == START
    {
      idTracker, jobQueue, finishedJobs, runningJob, idOf := 0, [], [], None, map[];
      submitting, pc, job, interrupted, runners := multiset{}, Unstarted, 0, false, [];
      accepted, completed, shared := [], [], false;
    }

    /** `submit`, first half: the job object gets the next id. */
    method SetId(j: Job)
      requires Valid()
      modifies this`idTracker, this`idOf, this`submitting, this`shared
      ensures Valid() && idTracker == old(idTracker) + 1 && idOf == old(idOf)[j := idTracker]
      ensures submitting == Joined(old(submitting), j) && shared == (old(shared) || j in old(Pending()))
    {
      hide RecordsOk, RunnersOk, OnTheirWay, Joined, Left;
      SetIdRecords(shared, idOf, idTracker, finishedJobs, Pending(), completed, j);
      QueueSteps(jobQueue, Held(), submitting, j);
      idTracker := idTracker + 1;
      idOf := idOf[j := idTracker];
      submitting := Joined(submitting, j);
      shared := shared || j in old(Pending());
      assert Held() == old(Held()) && Waiting() == old(Waiting());
      assert Valid();
    }

    /** `submit`, second half: the queue takes the job. */
    method Offer(j: Job)
      requires Valid() && j in submitting
      modifies this`jobQueue, this`submitting, this`accepted
      ensures Valid() && jobQueue == old(jobQueue) + [j] && accepted == old(accepted) + [j]
      ensures submitting == Left(old(submitting), j)
    {
      hide RecordsOk, RunnersOk, OnTheirWay, Joined, Left;
      QueueSteps(jobQueue, Held(), submitting, j);
      AcceptedGrows(runners, accepted, completed, Waiting(), Held(), jobQueue, j);
      jobQueue := jobQueue + [j];
      submitting := Left(submitting, j);
      accepted := accepted + [j];
      assert Held() == old(Held()) && Waiting() == old(Waiting());
      assert Valid();
    }

    /** `submit`, second half: the time is up or the submitter is interrupted. */
    method GiveUp(j: Job)
      requires Valid() && j in submitting
      modifies this`submitting
      ensures Valid() && submitting == Left(old(submitting), j)
    {
      hide RecordsOk, RunnersOk, OnTheirWay, Joined, Left;
      FewerRecords(shared, idOf, idTracker, finishedJobs, Pending(), completed, j);
      QueueSteps(jobQueue, Held(), submitting, j);
      submitting := Left(submitting, j);
    }

    /** A `submit` call during which nobody else takes a step. */
    method Submit(j: Job)
      requires Valid()
      modifies this`idTracker, this`idOf, this`submitting, this`shared, this`jobQueue, this`accepted
      ensures Valid() && idTracker == old(idTracker) + 1 && idOf == old(idOf)[j := idTracker]
      ensures jobQueue == old(jobQueue) + [j] && accepted == old(accepted) + [j]
      ensures submitting == old(submitting) && shared == (old(shared) || j in old(Pending()))
    {
      hide Valid, Pending;
      JoinedLeft(submitting, j);
      SetId(j);
      hide Joined, Left;
      Offer(j);
    }

    /** `start`. */
    method Start()
      requires Valid() && pc == Unstarted
      modifies this`pc
      ensures Valid() && pc == AtTake
    {
      hide RecordsOk, RunnersOk, OnTheirWay, Joined, Left;
      pc := AtTake;
      assert Held() == old(Held());
    }

    /** `stop`. */
    method Stop()
      requires Valid()
      modifies this`interrupted
      ensures Valid() && interrupted == (old(interrupted) || pc !in {Unstarted, Ended})
    {
      hide RecordsOk, RunnersOk, OnTheirWay, Joined, Left;
      if pc !in {Unstarted, Ended} { interrupted := true; }
    }

    /** A runner thread ends. */
    method RunnerEnds(i: nat)
      requires Valid() && i < |runners|
      modifies this`runners
      ensures Valid() && runners == old(runners)[i := old(runners)[i].(alive := false)]
    {
      hide RecordsOk, OnTheirWay, Joined, Left;
      runners := runners[i := runners[i].(alive := false)];
      assert Jobs(runners) == Jobs(old(runners));
    }

    // ----- the scheduler thread -----

    /** `take` returns the head of the queue. */
    method Take()
      requires Valid() && pc == AtTake && !interrupted && jobQueue != []
      modifies this`jobQueue, this`pc, this`job
      ensures Valid() && pc == Taken && [job] + jobQueue == old(jobQueue)
      ensures W() == ThreadStep(old(W()))
    {
      hide RecordsOk, RunnersOk, OnTheirWay, Joined, Left;
      HeldSteps(jobQueue[1..], submitting, jobQueue[0]);
      job, jobQueue, pc := jobQueue[0], jobQueue[1..], Taken;
      assert [job] + jobQueue == old(jobQueue);
    }

    method Announce()
      requires Valid() && pc == Taken
      modifies this`runningJob, this`pc
      ensures Valid() && pc == Announced && runningJob == Some(job)
      ensures W() == ThreadStep(old(W()))
    {
      hide RecordsOk, RunnersOk, OnTheirWay, Joined, Left;
      runningJob, pc := Some(job), Announced;
      assert Held() == old(Held());
    }

    /** A new runner starts on the job; all earlier ones are dead. */
    method StartRunner()
      requires Valid() && pc == Announced
      modifies this`runners, this`pc
      ensures Valid() && pc == Polling && runners == old(runners) + [Runner(job, true, false)]
      ensures W() == ThreadStep(old(W()))
      ensures forall i :: 0 <= i < |runners| - 1 ==> !runners[i].alive
    {
      hide RecordsOk, OnTheirWay, Joined, Left;
      runners, pc := runners + [Runner(job, true, false)], Polling;
      assert Held() == old(Held());
      assert Jobs(runners) == Jobs(old(runners)) + [job];
      assert accepted[..|runners|] == accepted[..|completed|] + [job];
    }

    method Poll()
      requires Valid() && pc == Polling
      modifies this`pc
      ensures Valid() && pc == if runners[|runners| - 1].alive then Sleeping else Done
      ensures W() == ThreadStep(old(W()))
    {
      hide RecordsOk, OnTheirWay, Joined, Left;
      pc := if runners[|runners| - 1].alive then Sleeping else Done;
      assert Held() == old(Held());
    }

    method Wake()
      requires Valid() && pc == Sleeping && !interrupted
      modifies this`pc
      ensures Valid() && pc == Polling
      ensures W() == ThreadStep(old(W()))
    {
      hide RecordsOk, RunnersOk, OnTheirWay, Joined, Left;
      pc := Polling;
      assert Held() == old(Held());
    }

    /** `finishedJobs.put`, under the id that the job object has by now. */
    method Finish()
      requires Valid() && pc == Done
      modifies this`finishedJobs, this`pc, this`completed
      ensures Valid() && pc == Recorded && job in idOf && !runners[|completed| - 1].alive
      ensures W() == ThreadStep(old(W()))
      ensures completed == old(completed) + [job] && finishedJobs == Put(old(finishedJobs), idOf[job], job)
      ensures |finishedJobs| == |old(finishedJobs)| <==> idOf[job] in Keys(old(finishedJobs))
      ensures idOf[job] !in Keys(old(finishedJobs)) ==> finishedJobs == old(finishedJobs) + [Record(idOf[job], job)]
      ensures !shared ==> idOf[job] !in Keys(old(finishedJobs))
    {
      hide RecordsOk, OnTheirWay, Joined, Left;
      HeldSteps(jobQueue, submitting, job);
      FinishRecords(shared, idOf, idTracker, finishedJobs, Pending(), completed, job);
      finishedJobs, pc := Put(finishedJobs, idOf[job], job), Recorded;
      completed := completed + [job];
      assert completed + [] == completed;
    }

    method Clear()
      requires Valid() && pc == Recorded
      modifies this`runningJob, this`pc
      ensures Valid() && pc == AtTake && runningJob == None
      ensures W() == ThreadStep(old(W()))
    {
      hide RecordsOk, RunnersOk, OnTheirWay, Joined, Left;
      runningJob, pc := None, AtTake;
      assert Held() == old(Held());
    }

    /** `take` or `sleep` throws: the thread interrupts its last runner, if any, and ends. A job that it
        was waiting for stays where it is. */
    method Catch()
      requires Valid() && pc in {AtTake, Sleeping} && interrupted
      modifies this`pc, this`runners, this`interrupted
      ensures Valid() && pc == Ended && Held() == old(Held()) && Jobs(runners) == Jobs(old(runners))
      ensures runners != [] ==> runners[|runners| - 1].interrupted
      ensures W() == ThreadStep(old(W()))
    {
      hide RecordsOk, OnTheirWay, Joined, Left, ThreadStep;
      CatchIsStep(W());
      pc, interrupted := Ended, false;
      if runners != [] {
        var last := |runners| - 1;
        runners := runners[last := runners[last].(interrupted := true)];
      }
      assert Held() == old(Held());
      assert Jobs(runners) == Jobs(old(runners));
    }

    predicate CanStep()
      reads this
    {
      match pc
      case Unstarted | Ended => false
      case AtTake => interrupted || jobQueue != []
      case _ => true
    }

    /** The next step of the scheduler thread. */
    method Step()
      requires Valid() && CanStep()
      modifies this`jobQueue, this`finishedJobs, this`runningJob, this`pc, this`job, this`runners
      modifies this`completed, this`interrupted
      ensures Valid() && W() == ThreadStep(old(W()))
      ensures old(pc) == Done ==>
                && job in idOf && finishedJobs == Put(old(finishedJobs), idOf[job], job)
                && old(Held() + jobQueue) == [job] + (Held() + jobQueue)
      ensures old(pc) != Done ==> finishedJobs == old(finishedJobs) && Held() + jobQueue == old(Held() + jobQueue)
      ensures !old(interrupted) ==> !interrupted && pc !in {Unstarted, Ended}
      ensures !old(interrupted) && (old(pc) == Polling ==> !old(runners[|runners| - 1].alive)) ==>
                StepsLeft() < old(StepsLeft())
    {
      hide Valid, ThreadStep, Put, Keys, Pending, W;
      match pc
      case AtTake => if interrupted { Catch(); } else { Take(); }
      case Taken => Announce();
      case Announced => StartRunner();
      case Polling => HasRunner(this); Poll();
      case Sleeping => if interrupted { Catch(); } else { Wake(); }
      case Done => Finish();
      case Recorded => Clear();
    }

    /** How many steps the scheduler thread still has, if its runners are dead when it looks. */
    function StepsLeft(): nat
      reads this
    {
      8 * |jobQueue| +
      match pc
      case Unstarted | AtTake | Ended => 0
      case Taken => 7
      case Announced => 6
      case Sleeping => 5
      case Polling => 4
      case Done => 3
      case Recorded => 2
    }

    /** Without `stop`, if runners end, every accepted job gets finished. Each has an entry of its own in
        `finishedJobs` if and only if the jobs on the way are different objects and none of them has been
        recorded already under the id it has. */
    method Drain()
      requires Valid() && !interrupted && pc !in {Unstarted, Ended}
      modifies this`jobQueue, this`finishedJobs, this`runningJob, this`pc, this`job, this`runners
      modifies this`completed, this`interrupted
      ensures Valid() && pc == AtTake && jobQueue == [] && completed == accepted
      ensures forall j :: j in old(Held() + jobQueue) ==> j in idOf
      ensures finishedJobs == PutAll(old(finishedJobs), old(Held() + jobQueue), idOf)
      ensures |finishedJobs| - |old(finishedJobs)| == |completed| - |old(completed)|
              <==> Unrecorded(old(finishedJobs), old(Held() + jobQueue), idOf)
    {
      hide Valid, PutAll, Put, Unrecorded;
      ghost var finished0, jobs0, completed0 := finishedJobs, Held() + jobQueue, completed;
      WaitingHaveIds(this);
      while CanStep()
        invariant Valid() && !interrupted && pc !in {Unstarted, Ended}
        invariant forall j :: j in Held() + jobQueue ==> j in idOf
        invariant PutAll(finishedJobs, Held() + jobQueue, idOf) == PutAll(finished0, jobs0, idOf)
        decreases StepsLeft()
      {
        ghost var finished, jobs := finishedJobs, Held() + jobQueue;
        HasRunner(this);
        if pc == Polling { RunnerEnds(|runners| - 1); }
        assert Held() + jobQueue == jobs;
        Step();
        PutNext(finished, jobs, idOf);
        assert forall j :: j in Held() + jobQueue ==> j in jobs;
      }
      AllCompleted(this);
      PutNone(finishedJobs, idOf);
      PutAllSize(finished0, jobs0, idOf);
    }

    /** One step of anyone. */
    method Perform(act: Act)
      requires Valid()
      modifies this
      ensures Valid() && W() == AfterAct(old(W()), act)
      ensures shared ==> old(shared) || (act.SetsId? && act.job in old(Pending()))
    {
      hide Valid, Pending, AfterAct, W;
      match act
      case SetsId(_) => PerformSubmit(act);
      case Offers(_) => PerformSubmit(act);
      case GivesUp(_) => PerformSubmit(act);
      case _ => PerformOther(act);
    }

    method PerformSubmit(act: Act)
      requires Valid() && (act.SetsId? || act.Offers? || act.GivesUp?)
      modifies this
      ensures Valid() && W() == AfterAct(old(W()), act)
      ensures shared ==> old(shared) || (act.SetsId? && act.job in old(Pending()))
    {
      hide Valid, Joined, Left, Pending, ThreadStep;
      if act.SetsId? {
        SetId(act.job);
      } else if act.job in submitting {
        if act.Offers? { Offer(act.job); } else { GiveUp(act.job); }
      }
    }

    method PerformOther(act: Act)
      requires Valid() && !(act.SetsId? || act.Offers? || act.GivesUp?)
      modifies this`jobQueue, this`finishedJobs, this`runningJob, this`pc, this`job, this`runners
      modifies this`completed, this`interrupted
      ensures Valid() && W() == AfterAct(old(W()), act)
    {
      hide Valid, Joined, Left, Put, Keys;
      match act
      case Starts => if pc == Unstarted { Start(); }
      case Stops => Stop();
      case Steps => if CanStep() { Step(); }
      case Ends(i) => if i < |runners| { RunnerEnds(i); }
    }
  }

  lemma HasRunner(s: JobScheduler)
    requires s.Valid()
    ensures s.pc == Polling ==> |s.runners| > 0
  {
  }

  lemma WaitingHaveIds(s: JobScheduler)
    requires s.Valid()
    ensures OwnId(s.idOf) && forall j :: j in s.Held() + s.jobQueue ==> j in s.idOf
    ensures s.accepted == s.completed + (s.Held() + s.jobQueue)
  {
    forall j | j in s.Held() + s.jobQueue ensures j in s.Pending() { assert j in s.Held() || j in s.jobQueue; }
  }

  lemma PutNext(finished: seq<Record>, jobs: seq<Job>, idOf: map<Job, nat>)
    requires forall j :: j in jobs ==> j in idOf
    ensures jobs != [] ==>
              PutAll(finished, jobs, idOf) == PutAll(Put(finished, idOf[jobs[0]], jobs[0]), jobs[1..], idOf)
  {
  }

  lemma PutNone(finished: seq<Record>, idOf: map<Job, nat>)
    ensures PutAll(finished, [], idOf) == finished
  {
  }

  lemma AllCompleted(s: JobScheduler)
    requires s.Valid() && s.pc == AtTake && s.jobQueue == []
    ensures s.completed == s.accepted
  {
  }

  lemma PendingHaveIds(s: JobScheduler)
    requires s.Valid()
    ensures forall j :: j in s.Pending() ==> j in s.idOf
  {
  }

  /** Conservation, FIFO order, one runner at a time, and no job finished before its runner is dead. */
  lemma InOnePlace(s: JobScheduler)
    requires s.Valid()
    ensures s.accepted == s.completed + s.Held() + s.jobQueue
    ensures forall i, j :: 0 <= i < |s.runners| && 0 <= j < |s.runners| && s.runners[i].alive && s.runners[j].alive ==>
              i == j
    ensures forall i :: 0 <= i < |s.completed| ==>
              s.runners[i].job == s.completed[i] == s.accepted[i] && !s.runners[i].alive
    ensures !s.shared ==>
              && |s.finishedJobs| == |s.completed|
              && (forall i :: 0 <= i < |s.completed| ==> s.finishedJobs[i].job == s.completed[i])
              && (forall i, j :: 0 <= i < j < |s.finishedJobs| ==> s.finishedJobs[i].id != s.finishedJobs[j].id)
              && (forall j :: j in s.Held() + s.jobQueue ==> j in s.idOf && s.idOf[j] !in Keys(s.finishedJobs))
              && (forall i, j :: 0 <= i < j < |s.Held() + s.jobQueue| ==>
                    (s.Held() + s.jobQueue)[i] != (s.Held() + s.jobQueue)[j])
  {
    if !s.shared { OwnIds(s.idOf, s.idTracker, s.finishedJobs, s.Held(), s.jobQueue, s.submitting, s.completed); }
    hide OnTheirWay, RecordsOk;
    assert Jobs(s.runners) == s.accepted[..|s.runners|];
  }

  lemma OwnIds(idOf: map<Job, nat>, idTracker: nat, finished: seq<Record>, held: seq<Job>, queue: seq<Job>,
               submitting: multiset<Job>, completed: seq<Job>)
    requires RecordsOk(false, idOf, idTracker, finished, OnTheirWay(queue, held, submitting), completed)
    ensures |finished| == |completed| && forall i :: 0 <= i < |completed| ==> finished[i].job == completed[i]
    ensures forall i, j :: 0 <= i < j < |finished| ==> finished[i].id != finished[j].id
    ensures forall j :: j in held + queue ==> j in idOf && idOf[j] !in Keys(finished)
    ensures forall i, j :: 0 <= i < j < |held + queue| ==> (held + queue)[i] != (held + queue)[j]
  {
    var s := held + queue;
    forall j | j in s ensures j in OnTheirWay(queue, held, submitting) { assert j in held || j in queue; }
    assert multiset(s) == multiset(held) + multiset(queue);
    forall i, j | 0 <= i < j < |s| ensures s[i] != s[j] {
      hide RecordsOk, Keys;
      TwiceInList(s, i, j);
      NotTwice(idOf, idTracker, finished, OnTheirWay(queue, held, submitting), completed, s[i]);
    }
  }

  lemma NotTwice(idOf: map<Job, nat>, idTracker: nat, finished: seq<Record>, pending: multiset<Job>,
                 completed: seq<Job>, j: Job)
    requires RecordsOk(false, idOf, idTracker, finished, pending, completed)
    ensures pending[j] <= 1
  {
    assert j in pending || pending[j] == 0;
  }

  lemma TwiceInList(s: seq<Job>, i: nat, j: nat)
    requires i < j < |s|
    ensures s[i] == s[j] ==> multiset(s)[s[i]] >= 2
  {
    assert s == s[..j] + [s[j]] + s[j + 1..];
    assert s[..j][i] == s[i];
    assert s[i] in multiset(s[..j]);
    assert multiset(s) == multiset(s[..j]) + multiset{s[j]} + multiset(s[j + 1..]);
  }

  method RunOne(s: JobScheduler)
    requires s.Valid() && s.pc == AtTake && !s.interrupted && s.jobQueue != [] && s.jobQueue[0] in s.idOf
    modifies s
    ensures s.Valid() && s.pc == AtTake && !s.interrupted && s.idOf == old(s.idOf)
    ensures s.jobQueue == old(s.jobQueue)[1..]
    ensures s.completed == old(s.completed) + [old(s.jobQueue[0])]
    ensures s.finishedJobs == Put(old(s.finishedJobs), s.idOf[old(s.jobQueue[0])], old(s.jobQueue[0]))
  {
    hide JobScheduler.Valid, JobScheduler.W, ThreadStep, Put, Keys;
    s.Take();
    s.Announce();
    s.StartRunner();
    HasRunner(s);
    s.RunnerEnds(|s.runners| - 1);
    s.Poll();
    s.Finish();
    s.Clear();
  }

  /** The same job object submitted twice before it is finished gets one entry in `finishedJobs`. */
  method SubmittedTwice() returns (s: JobScheduler)
    ensures s.Valid() && s.completed == [7, 7] && |s.finishedJobs| == 1
  {
    hide JobScheduler.Valid, JobScheduler.Pending;
    s := new JobScheduler();
    s.Submit(7);
    s.Submit(7);
    s.Start();
    RunOne(s);
    RunOne(s);
  }
}
