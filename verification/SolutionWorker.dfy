/** The job queue of a solution proxy: service threads hand at most one job at a time to a worker that
    sleeps on a condition variable. Each thread moves in labelled steps, in any order. A section under the
    mutex of the condition variable is one step; the mutex of the queue is held over several. */
module SolutionWorker {
  import opened Wrappers

  /** Where the worker stands in its loop: before the loop test; in wait, about to test job_ready; in
      wait, asleep; back from wait; about to look at the queue; with a job; after it; gone. */
  datatype Worker = Looping | Testing | Asleep | Woken | Peeking | Processing(job: bool) | Popping | Exited

  /** A thread in setEnableValue and pushJob. */
  datatype Caller = Calling(job: bool) | Wanting(job: bool) | Locked(job: bool) | Pushed | Readied | Leaving | Finished

  /** The thread in stopThread. */
  datatype Stopper = Absent | Doomed | Signalling | Joining | Joined

  datatype State = State(queue: seq<int>, ready: bool, alive: bool, owner: Option<nat>, worker: Worker,
                         callers: seq<Caller>, stopper: Stopper, preRun: bool, status: bool,
                         accepted: seq<bool>, processed: seq<bool>)

  /** The worker is started on an empty queue; job_ready may be left over from before. */
  function Started(callers: seq<bool>, ready: bool, preRun: bool, status: bool): State {
    State([], ready, true, None, Looping, seq(|callers|, i requires 0 <= i < |callers| => Calling(callers[i])),
          Absent, preRun, status, [], [])
  }

  datatype Step =
    | Loop | Test | Spurious | WaitFails | Check | Peek | Process | Pop
    | Call(i: nat) | Lock(i: nat) | Push(i: nat) | Ready(i: nat) | Notify(i: nat) | Unlock(i: nat)
    | Kill | StopReady | StopNotify | Join

  predicate At(s: State, i: nat, c: Caller) {
    i < |s.callers| && s.callers[i] == c
  }

  predicate Enabled(s: State, t: Step) {
    match t
    case Loop => s.worker.Looping?
    case Test => s.worker.Testing?
    case Spurious => s.worker.Asleep?
    case WaitFails => s.worker.Testing?
    case Check => s.worker.Woken?
    case Peek => s.worker.Peeking? && s.owner.None?
    case Process => s.worker.Processing?
    case Pop => s.worker.Popping? && s.owner.None?
    case Call(i) => i < |s.callers| && s.callers[i].Calling?
    case Lock(i) => i < |s.callers| && s.callers[i].Wanting? && s.owner.None?
    case Push(i) => i < |s.callers| && s.callers[i].Locked?
    case Ready(i) => At(s, i, Pushed)
    case Notify(i) => At(s, i, Readied)
    case Unlock(i) => At(s, i, Leaving)
    case Kill => s.stopper.Absent?
    case StopReady => s.stopper.Doomed?
    case StopNotify => s.stopper.Signalling?
    case Join => s.stopper.Joining? && s.worker.Exited?
  }

  function Moved(s: State, i: nat, c: Caller): State
    requires i < |s.callers|
  {
    s.(callers := s.callers[i := c])
  }

  /** notify_all */
  function Awake(w: Worker): Worker {
    if w.Asleep? then Testing else w
  }

  function AsJob(b: bool): int {
    if b then 1 else 0
  }

  function Apply(s: State, t: Step): State
    requires Enabled(s, t)
  {
    match t
    case Loop => s.(worker := if s.alive then Testing else Exited)
    case Test => if s.ready then s.(ready := false, worker := Woken) else s.(worker := Asleep)
    case Spurious => s.(worker := Testing)
    case WaitFails => s.(alive := false, worker := Exited)
    case Check => s.(worker := if s.alive then Peeking else Looping)
    case Peek => s.(worker := if s.queue == [] then Looping else Processing(s.queue[0] != 0))
    case Process => s.(worker := Popping, status := s.worker.job, processed := s.processed + [s.worker.job])
    case Pop => s.(worker := Looping, queue := if s.queue == [] then [] else s.queue[1..])
    case Call(i) =>
      var job := s.callers[i].job;
      if s.alive then Moved(s, i, Wanting(job)) else Moved(s, i, Finished).(preRun := job)
    case Lock(i) => Moved(s, i, Locked(s.callers[i].job)).(owner := Some(i))
    case Push(i) =>
      var job := s.callers[i].job;
      if s.queue == [] then Moved(s, i, Pushed).(queue := [AsJob(job)], accepted := s.accepted + [job])
      else Moved(s, i, Leaving)
    case Ready(i) => Moved(s, i, Readied).(ready := true)
    case Notify(i) => Moved(s, i, Leaving).(worker := Awake(s.worker))
    case Unlock(i) => Moved(s, i, Finished).(owner := None)
    case Kill => s.(alive := false, stopper := Doomed)
    case StopReady => s.(ready := true, stopper := Signalling)
    case StopNotify => s.(worker := Awake(s.worker), stopper := Joining)
    case Join => s.(stopper := Joined)
  }

  // ---- what every step keeps ----

  predicate InSection(c: Caller) {
    c.Locked? || c.Pushed? || c.Readied? || c.Leaving?
  }

  /** The queue's mutex is held by exactly the caller inside pushJob's section. */
  ghost predicate Owned(s: State) {
    && (s.owner.Some? ==> s.owner.value < |s.callers|)
    && forall i :: 0 <= i < |s.callers| ==> (InSection(s.callers[i]) <==> s.owner == Some(i))
  }

  predicate HolderAt(s: State, c: Caller) {
    s.owner.Some? && At(s, s.owner.value, c)
  }

  /** Jobs accepted and not popped. */
  function Pending(s: State): seq<bool> {
    if s.queue == [] then [] else [s.queue[0] != 0]
  }

  /** Every accepted job is processed or in the queue; only between processing and popping in both. */
  ghost predicate Accounted(s: State) {
    && |s.queue| <= 1
    && (if s.worker.Popping? then s.queue != [] && s.accepted == s.processed
        else s.accepted == s.processed + Pending(s))
    && (s.worker.Processing? ==> s.queue != [] && s.worker.job == (s.queue[0] != 0))
    && (s.processed != [] ==> s.status == s.processed[|s.processed| - 1])
  }

  /** The worker is in wait, or on its way there. */
  predicate Resting(s: State) {
    s.worker.Testing? || s.worker.Asleep? || (s.worker.Looping? && s.alive)
  }

  /** A job in the queue of a resting worker has set job_ready, or its caller is just about to. */
  predicate JobSignalled(s: State) {
    Resting(s) && s.queue != [] ==> s.ready || HolderAt(s, Pushed)
  }

  /** A worker asleep although job_ready is set is about to be woken. */
  predicate WakeComing(s: State) {
    s.worker.Asleep? && s.ready ==> HolderAt(s, Readied) || s.stopper.Signalling?
  }

  predicate StopSignalled(s: State) {
    && (!s.stopper.Absent? ==> !s.alive)
    && (s.stopper.Signalling? || s.stopper.Joining? ==> (s.worker.Testing? || s.worker.Asleep? ==> s.ready))
    && (s.stopper.Joined? ==> s.worker.Exited?)
    && (s.worker.Exited? ==> !s.alive)
  }

  ghost predicate Inv(s: State) {
    Owned(s) && Accounted(s) && JobSignalled(s) && WakeComing(s) && StopSignalled(s)
  }

  lemma OwnedMoved(s: State, u: State, i: nat, c: Caller)
    requires Owned(s) && i < |s.callers| && u.callers == s.callers[i := c]
    requires InSection(c) <==> u.owner == Some(i)
    requires u.owner == s.owner || (s.owner.None? && u.owner == Some(i)) || (s.owner == Some(i) && u.owner.None?)
    ensures Owned(u)
  {
  }

  lemma OwnedStep(s: State, t: Step)
    requires Owned(s) && Enabled(s, t)
    ensures Owned(Apply(s, t))
  {
    var u := Apply(s, t);
    if IsCallers(t) {
      assert InSection(s.callers[t.i]) <==> s.owner == Some(t.i);
      hide Owned;
      OwnedMoved(s, u, t.i, NextOf(s, t));
    } else {
      assert u.callers == s.callers && u.owner == s.owner;
      hide Apply;
    }
  }

  /** Queue and history are untouched, and the worker is not at the job. */
  predicate SameBooks(s: State, u: State) {
    && u.queue == s.queue && u.accepted == s.accepted && u.processed == s.processed && u.status == s.status
    && (u.worker == s.worker
        || !(s.worker.Popping? || s.worker.Processing? || u.worker.Popping? || u.worker.Processing?))
  }

  lemma WorkerAccounted(s: State, t: Step)
    requires Accounted(s) && Enabled(s, t) && (t.Peek? || t.Process? || t.Pop?)
    ensures Accounted(Apply(s, t))
  {
  }

  lemma PushAccounted(s: State, i: nat)
    requires Accounted(s) && Enabled(s, Push(i))
    ensures Accounted(Apply(s, Push(i)))
  {
    if s.queue == [] {
      assert s.accepted == s.processed;
    }
  }

  lemma OthersKeepBooks(s: State, t: Step)
    requires Enabled(s, t) && !t.Peek? && !t.Process? && !t.Pop? && !t.Push?
    ensures SameBooks(s, Apply(s, t))
  {
  }

  lemma SameBooksAccounted(s: State, u: State)
    requires Accounted(s) && SameBooks(s, u)
    ensures Accounted(u)
  {
  }

  lemma AccountedStep(s: State, t: Step)
    requires Accounted(s) && Enabled(s, t)
    ensures Accounted(Apply(s, t))
  {
    hide Accounted, Apply, SameBooks;
    if t.Peek? || t.Process? || t.Pop? {
      WorkerAccounted(s, t);
    } else if t.Push? {
      PushAccounted(s, t.i);
    } else {
      OthersKeepBooks(s, t);
      SameBooksAccounted(s, Apply(s, t));
    }
  }

  lemma JobSignalledStep(s: State, t: Step)
    requires Owned(s) && Accounted(s) && JobSignalled(s) && Enabled(s, t)
    ensures JobSignalled(Apply(s, t))
  {
  }

  lemma WakeComingStep(s: State, t: Step)
    requires Owned(s) && WakeComing(s) && Enabled(s, t)
    ensures WakeComing(Apply(s, t))
  {
  }

  lemma StopSignalledStep(s: State, t: Step)
    requires StopSignalled(s) && Enabled(s, t)
    ensures StopSignalled(Apply(s, t))
  {
  }

  lemma StepKeeps(s: State, t: Step)
    requires Inv(s) && Enabled(s, t)
    ensures Inv(Apply(s, t))
  {
    OwnedStep(s, t);
    AccountedStep(s, t);
    JobSignalledStep(s, t);
    WakeComingStep(s, t);
    StopSignalledStep(s, t);
  }

  // ---- runs ----

  ghost predicate Runs(s: State, steps: seq<Step>)
    decreases |steps|
  {
    steps == [] || (Enabled(s, steps[0]) && Runs(Apply(s, steps[0]), steps[1..]))
  }

  ghost function After(s: State, steps: seq<Step>): State
    requires Runs(s, steps)
    decreases |steps|
  {
    if steps == [] then s else After(Apply(s, steps[0]), steps[1..])
  }

  lemma {:induction false} RunKeeps(s: State, steps: seq<Step>)
    requires Inv(s) && Runs(s, steps)
    ensures Inv(After(s, steps))
    decreases |steps|
  {
    if steps == [] {
    } else {
      StepKeeps(s, steps[0]);
      RunKeeps(Apply(s, steps[0]), steps[1..]);
    }
  }

  lemma StartedInv(jobs: seq<bool>, ready: bool, preRun: bool, status: bool)
    ensures Inv(Started(jobs, ready, preRun, status))
  {
  }

  /** From a start on an empty queue, through any interleaving: a job in the queue of a live worker that
      waits has set job_ready, unless its caller, still holding the queue's mutex, is just about to; and a
      worker asleep with job_ready set has a notification coming. */
  lemma NoLostWakeUp(jobs: seq<bool>, ready: bool, preRun: bool, status: bool, steps: seq<Step>)
    requires Runs(Started(jobs, ready, preRun, status), steps)
    ensures var s := After(Started(jobs, ready, preRun, status), steps);
            && |s.queue| <= 1
            && ((s.worker.Testing? || s.worker.Asleep?) && s.queue != [] ==> s.ready || HolderAt(s, Pushed))
            && (s.worker.Asleep? && s.ready ==> HolderAt(s, Readied) || s.stopper.Signalling?)
  {
    StartedInv(jobs, ready, preRun, status);
    RunKeeps(Started(jobs, ready, preRun, status), steps);
  }

  /** Jobs are processed in the order of their acceptance, each exactly once, at most one is outstanding,
      a job is accepted only when all before it are processed, and the solution's status is what the
      last processed job asked for. */
  lemma ProcessedExactlyOnce(jobs: seq<bool>, ready: bool, preRun: bool, status: bool, steps: seq<Step>)
    requires Runs(Started(jobs, ready, preRun, status), steps)
    ensures var s := After(Started(jobs, ready, preRun, status), steps);
            && s.processed <= s.accepted && |s.accepted| <= |s.processed| + 1
            && (s.processed != [] ==> s.status == s.processed[|s.processed| - 1])
            && forall t :: Enabled(s, t) && Apply(s, t).accepted != s.accepted ==> s.accepted == s.processed
  {
    StartedInv(jobs, ready, preRun, status);
    RunKeeps(Started(jobs, ready, preRun, status), steps);
    var s := After(Started(jobs, ready, preRun, status), steps);
    forall t | Enabled(s, t) && Apply(s, t).accepted != s.accepted ensures s.accepted == s.processed {
      assert t.Push? && s.queue == [];
    }
  }

  // ---- progress ----

  function CallerWork(c: Caller): nat {
    match c
    case Calling(_) => 6
    case Wanting(_) => 5
    case Locked(_) => 4
    case Pushed => 3
    case Readied => 2
    case Leaving => 1
    case Finished => 0
  }

  function CallersWork(cs: seq<Caller>): nat {
    if cs == [] then 0 else CallerWork(cs[0]) + CallersWork(cs[1..])
  }

  function StopperWork(p: Stopper): nat {
    match p
    case Absent => 4
    case Doomed => 3
    case Signalling => 2
    case Joining => 1
    case Joined => 0
  }

  function WorkerWork(w: Worker): nat {
    match w
    case Woken => 5
    case Peeking => 4
    case Processing(_) => 3
    case Popping => 2
    case Looping => 1
    case _ => 0
  }

  /** What is left to do. A caller's step may cause a round of the worker, and outweighs it. */
  function Work(s: State): nat {
    20 * CallersWork(s.callers) + 20 * StopperWork(s.stopper) + WorkerWork(s.worker) + (if s.ready then 6 else 0)
  }

  lemma {:induction false} MovedWork(cs: seq<Caller>, i: nat, c: Caller)
    requires i < |cs|
    ensures CallersWork(cs[i := c]) == CallersWork(cs) - CallerWork(cs[i]) + CallerWork(c)
  {
    if i == 0 {
      assert cs[0 := c][1..] == cs[1..];
    } else {
      assert cs[i := c][1..] == cs[1..][i - 1 := c];
      MovedWork(cs[1..], i - 1, c);
    }
  }

  /** A step some thread will take if it is scheduled: not a spurious wake-up, not a failure, not the
      decision to stop, and not falling asleep. */
  predicate Due(s: State, t: Step) {
    Enabled(s, t) && !t.Spurious? && !t.WaitFails? && !t.Kill? && !(t.Test? && !s.ready)
  }

  function NextOf(s: State, t: Step): Caller
    requires Enabled(s, t) && IsCallers(t)
  {
    Apply(s, t).callers[t.i]
  }

  predicate IsCallers(t: Step) {
    t.Call? || t.Lock? || t.Push? || t.Ready? || t.Notify? || t.Unlock?
  }

  lemma CallerStepShrinks(s: State, t: Step)
    requires Enabled(s, t) && IsCallers(t)
    ensures Work(Apply(s, t)) < Work(s)
  {
    hide CallersWork;
    var u, c := Apply(s, t), NextOf(s, t);
    MovedWork(s.callers, t.i, c);
    assert u.callers == s.callers[t.i := c];
    assert CallerWork(c) < CallerWork(s.callers[t.i]);
    assert WorkerWork(u.worker) == WorkerWork(s.worker) && u.stopper == s.stopper;
  }

  lemma WorkShrinks(s: State, t: Step)
    requires Enabled(s, t)
    ensures Work(Apply(s, t)) <= Work(s)
    ensures Due(s, t) ==> Work(Apply(s, t)) < Work(s)
  {
    if IsCallers(t) {
      hide Work, Apply;
      CallerStepShrinks(s, t);
    } else {
      hide CallersWork;
    }
  }

  function DueSteps(s: State, steps: seq<Step>): nat
    requires Runs(s, steps)
    decreases |steps|
  {
    if steps == [] then 0
    else (if Due(s, steps[0]) then 1 else 0) + DueSteps(Apply(s, steps[0]), steps[1..])
  }

  /** In any run only so many steps can be anything but dozing. */
  lemma {:induction false} RunsDry(s: State, steps: seq<Step>)
    requires Runs(s, steps)
    ensures DueSteps(s, steps) + Work(After(s, steps)) <= Work(s)
    decreases |steps|
  {
    if steps != [] {
      WorkShrinks(s, steps[0]);
      RunsDry(Apply(s, steps[0]), steps[1..]);
    }
  }

  ghost predicate AtRest(s: State) {
    forall t :: !Due(s, t)
  }

  lemma HolderHasDue(s: State) returns (t: Step)
    requires Owned(s) && s.owner.Some?
    ensures Due(s, t)
  {
    var i := s.owner.value;
    assert InSection(s.callers[i]);
    match s.callers[i]
    case Locked(_) => t := Push(i);
    case Pushed => t := Ready(i);
    case Readied => t := Notify(i);
    case Leaving => t := Unlock(i);
  }

  lemma NoHolderAtRest(s: State)
    requires Owned(s) && AtRest(s)
    ensures s.owner.None?
  {
    if s.owner.Some? {
      var t := HolderHasDue(s);
      assert false;
    }
  }

  /** When nothing is due any more, every caller has returned, a stop has completed, and a worker that
      is still alive has processed all that was accepted. */
  lemma RestMeansDone(s: State)
    requires Inv(s) && AtRest(s)
    ensures forall i :: 0 <= i < |s.callers| ==> s.callers[i].Finished?
    ensures s.stopper.Absent? || s.stopper.Joined?
    ensures s.worker.Exited? || (s.queue == [] && s.processed == s.accepted)
  {
    NoHolderAtRest(s);
    forall i | 0 <= i < |s.callers| ensures s.callers[i].Finished? {
      assert !Due(s, Call(i)) && !Due(s, Lock(i));
    }
    assert !Due(s, Loop) && !Due(s, Check) && !Due(s, Peek) && !Due(s, Process) && !Due(s, Pop) && !Due(s, Test);
    assert !Due(s, StopReady) && !Due(s, StopNotify) && !Due(s, Join);
  }

  /** No interleaving stalls: the callers' and the worker's steps run out after finitely many, and when
      they have, from the start of a worker on an empty queue, everything accepted is processed or the
      worker's lifetime is over, no caller hangs, and a thread that stops the worker gets to join it. */
  lemma NothingHangs(jobs: seq<bool>, ready: bool, preRun: bool, status: bool, steps: seq<Step>)
    requires Runs(Started(jobs, ready, preRun, status), steps)
    ensures var s0 := Started(jobs, ready, preRun, status); var s := After(s0, steps);
            && DueSteps(s0, steps) <= Work(s0)
            && (AtRest(s) ==>
                  && (forall i :: 0 <= i < |s.callers| ==> s.callers[i].Finished?)
                  && (s.stopper.Absent? || s.stopper.Joined?)
                  && (s.worker.Exited? || s.processed == s.accepted))
  {
    StartedInv(jobs, ready, preRun, status);
    RunKeeps(Started(jobs, ready, preRun, status), steps);
    RunsDry(Started(jobs, ready, preRun, status), steps);
    var s := After(Started(jobs, ready, preRun, status), steps);
    if AtRest(s) {
      RestMeansDone(s);
    }
  }

  /** The jobs processed, and the one the worker is already on its way to. */
  function Begun(s: State): nat {
    |s.processed| + if s.worker.Peeking? || s.worker.Processing? then 1 else 0
  }

  lemma DeadBeginsNothing(s: State, t: Step)
    requires !s.alive && Enabled(s, t)
    ensures !Apply(s, t).alive && Begun(Apply(s, t)) <= Begun(s)
  {
  }

  /** Once it is told to stop, the worker processes at most the job it had already turned to. */
  lemma {:induction false} StoppedProcessesNoMore(s: State, steps: seq<Step>)
    requires !s.alive && Runs(s, steps)
    ensures Begun(After(s, steps)) <= Begun(s)
    decreases |steps|
  {
    if steps != [] {
      hide Begun, Apply, Enabled;
      DeadBeginsNothing(s, steps[0]);
      StoppedProcessesNoMore(Apply(s, steps[0]), steps[1..]);
    }
  }

  // ---- whose jobs are processed ----

  /** The job a caller has not handed over yet. */
  function Carried(c: Caller): Option<bool> {
    match c
    case Calling(job) => Some(job)
    case Wanting(job) => Some(job)
    case Locked(job) => Some(job)
    case _ => None
  }

  /** Every caller still carries the job it was called with. */
  ghost predicate CarryTheirJobs(s: State, jobs: seq<bool>) {
    && |s.callers| == |jobs|
    && forall i :: 0 <= i < |jobs| ==> Carried(s.callers[i]) == None || Carried(s.callers[i]) == Some(jobs[i])
  }

  lemma JobsCarried(s: State, t: Step, jobs: seq<bool>)
    requires CarryTheirJobs(s, jobs) && Enabled(s, t)
    ensures CarryTheirJobs(Apply(s, t), jobs)
  {
    if IsCallers(t) {
      var u := Apply(s, t);
      assert u.callers == s.callers[t.i := NextOf(s, t)];
      assert Carried(s.callers[t.i]) == None || Carried(s.callers[t.i]) == Some(jobs[t.i]);
      assert Carried(NextOf(s, t)) == None || Carried(NextOf(s, t)) == Carried(s.callers[t.i]);
    }
  }

  /** The jobs of the callers whose push found the queue empty, in the order of their pushes. */
  ghost function PushedJobs(s: State, steps: seq<Step>, jobs: seq<bool>): seq<bool>
    requires Runs(s, steps)
    decreases |steps|
  {
    if steps == [] then []
    else
      (if steps[0].Push? && s.queue == [] && steps[0].i < |jobs| then [jobs[steps[0].i]] else [])
      + PushedJobs(Apply(s, steps[0]), steps[1..], jobs)
  }

  lemma PushAccepts(s: State, t: Step, jobs: seq<bool>)
    requires CarryTheirJobs(s, jobs) && Enabled(s, t)
    ensures Apply(s, t).accepted ==
            s.accepted + if t.Push? && s.queue == [] && t.i < |jobs| then [jobs[t.i]] else []
  {
    if t.Push? {
      assert Carried(s.callers[t.i]) == Some(jobs[t.i]);
    }
    hide CarryTheirJobs;
  }

  lemma {:induction false} RunAccepts(s: State, steps: seq<Step>, jobs: seq<bool>)
    requires CarryTheirJobs(s, jobs) && Runs(s, steps)
    ensures After(s, steps).accepted == s.accepted + PushedJobs(s, steps, jobs)
    decreases |steps|
  {
    if steps != [] {
      hide Apply, Enabled, CarryTheirJobs;
      JobsCarried(s, steps[0], jobs);
      PushAccepts(s, steps[0], jobs);
      RunAccepts(Apply(s, steps[0]), steps[1..], jobs);
    }
  }

  /** What is accepted are, in order, exactly the requests of the callers that found the queue empty. */
  lemma AcceptedAreRequests(jobs: seq<bool>, ready: bool, preRun: bool, status: bool, steps: seq<Step>)
    requires Runs(Started(jobs, ready, preRun, status), steps)
    ensures var s0 := Started(jobs, ready, preRun, status);
            After(s0, steps).accepted == PushedJobs(s0, steps, jobs)
  {
    RunAccepts(Started(jobs, ready, preRun, status), steps, jobs);
  }

  /** Until a job is accepted, and while the worker lives, no caller is past its push. */
  ghost predicate NoneTurnedAway(s: State) {
    s.accepted == [] ==>
      s.queue == [] && (s.alive ==> forall i :: 0 <= i < |s.callers| ==> Carried(s.callers[i]).Some?)
  }

  lemma NoneTurnedAwayStep(s: State, t: Step)
    requires NoneTurnedAway(s) && Enabled(s, t)
    ensures NoneTurnedAway(Apply(s, t))
  {
    var u := Apply(s, t);
    if u.accepted == [] {
      assert s.queue == [] && !t.Push?;
      if u.alive {
        forall i | 0 <= i < |u.callers| ensures Carried(u.callers[i]).Some? {
          assert Carried(s.callers[i]).Some?;
        }
      }
    }
  }

  lemma {:induction false} RunTurnsNoneAway(s: State, steps: seq<Step>)
    requires Inv(s) && NoneTurnedAway(s) && Runs(s, steps)
    ensures Inv(After(s, steps)) && NoneTurnedAway(After(s, steps))
    decreases |steps|
  {
    if steps != [] {
      StepKeeps(s, steps[0]);
      NoneTurnedAwayStep(s, steps[0]);
      RunTurnsNoneAway(Apply(s, steps[0]), steps[1..]);
    }
  }

  lemma {:induction false} PushedAreJobs(s: State, steps: seq<Step>, jobs: seq<bool>)
    requires Runs(s, steps)
    ensures forall b :: b in PushedJobs(s, steps, jobs) ==> b in jobs
    decreases |steps|
  {
    if steps != [] {
      PushedAreJobs(Apply(s, steps[0]), steps[1..], jobs);
    }
  }

  /** At rest with the worker alive, the status is what the last accepted caller asked for; a lone caller's
      request is what it shows. */
  lemma RequestsTakeEffect(jobs: seq<bool>, ready: bool, preRun: bool, status: bool, steps: seq<Step>)
    requires Runs(Started(jobs, ready, preRun, status), steps)
    requires AtRest(After(Started(jobs, ready, preRun, status), steps))
    requires After(Started(jobs, ready, preRun, status), steps).alive && jobs != []
    ensures var s0 := Started(jobs, ready, preRun, status); var s := After(s0, steps);
            var pushed := PushedJobs(s0, steps, jobs);
            && pushed != [] && s.status == pushed[|pushed| - 1]
            && (|jobs| == 1 ==> s.status == jobs[0])
  {
    var s0 := Started(jobs, ready, preRun, status);
    var s := After(s0, steps);
    StartedInv(jobs, ready, preRun, status);
    RunTurnsNoneAway(s0, steps);
    RestMeansDone(s);
    AcceptedAreRequests(jobs, ready, preRun, status, steps);
    PushedAreJobs(s0, steps, jobs);
    RunKeepsCallers(s0, steps);
    assert 0 < |s.callers|;
    hide Runs, After, PushedJobs, AtRest;
    assert s.callers[0].Finished?;
    assert !s.worker.Exited?;
    assert PushedJobs(s0, steps, jobs)[|s.accepted| - 1] in jobs;
  }

  lemma {:induction false} RunKeepsCallers(s: State, steps: seq<Step>)
    requires Runs(s, steps)
    ensures |After(s, steps).callers| == |s.callers|
    decreases |steps|
  {
    if steps != [] {
      RunKeepsCallers(Apply(s, steps[0]), steps[1..]);
    }
  }

  /** What is kept for the next start after a run: the last request that found the worker gone, or `kept`. */
  ghost function LastLate(s: State, steps: seq<Step>, jobs: seq<bool>, kept: bool): bool
    requires Runs(s, steps)
    decreases |steps|
  {
    if steps == [] then kept
    else
      LastLate(Apply(s, steps[0]), steps[1..], jobs,
               if steps[0].Call? && !s.alive && steps[0].i < |jobs| then jobs[steps[0].i] else kept)
  }

  lemma StepKeepsLate(s: State, t: Step, jobs: seq<bool>)
    requires CarryTheirJobs(s, jobs) && Enabled(s, t)
    ensures Apply(s, t).preRun == if t.Call? && !s.alive && t.i < |jobs| then jobs[t.i] else s.preRun
  {
    if t.Call? {
      assert Carried(s.callers[t.i]) == Some(jobs[t.i]);
    }
    hide CarryTheirJobs;
  }

  lemma {:induction false} RunKeepsLate(s: State, steps: seq<Step>, jobs: seq<bool>)
    requires CarryTheirJobs(s, jobs) && Runs(s, steps)
    ensures After(s, steps).preRun == LastLate(s, steps, jobs, s.preRun)
    decreases |steps|
  {
    if steps != [] {
      hide Apply, Enabled, CarryTheirJobs;
      JobsCarried(s, steps[0], jobs);
      StepKeepsLate(s, steps[0], jobs);
      RunKeepsLate(Apply(s, steps[0]), steps[1..], jobs);
    }
  }

  /** A request that finds the worker gone is kept for its next start. */
  lemma LateRequestIsKept(s: State, i: nat)
    requires Enabled(s, Call(i)) && !s.alive
    ensures var u := Apply(s, Call(i));
            Some(u.preRun) == Carried(s.callers[i]) && u.callers[i].Finished? && u.queue == s.queue
  {
  }
}
