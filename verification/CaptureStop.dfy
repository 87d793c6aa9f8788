/** How a continuous capture stops: the service thread's stopCapture and the storage monitor's callback
    race for one flag, and the winner joins the capture thread. From the start of a capture, behind its
    startMonitor, until the next start; each thread moves in labelled steps, in any order. */
module CaptureStop {
  import opened Wrappers

  datatype Who = Service | Monitor

  /** Where the service thread or the monitor thread stands. */
  datatype Pc =
    | Arming | Spawning | Idle                       // service: startCapture, then between calls
    | Polling | Faulting | Testing | Dozing | Gone   // monitor: its loop
    | Swapping | Quieting | Reaping | Locking | Looking | JoiningCapture | Unlocking   // stopCapture

  datatype Capture = Unborn | Deciding | Framing | Ended

  /** `joinable` is tidCapture.joinable(); `calls` is how many stopCapture requests are still to come.
      The rest is history: who took the flag, who joined the capture thread, and what the winner found
      when it looked at tidCapture. */
  datatype State = State(flag: bool, monitoring: bool, joinable: bool, mutex: Option<Who>,
                         service: Pc, monitor: Pc, capture: Capture, calls: nat,
                         wins: seq<Who>, joins: seq<Who>, seen: Option<bool>)

  function Started(calls: nat): State {
    State(false, true, false, None, Arming, Polling, Unborn, calls, [], [], None)
  }

  function PcOf(s: State, w: Who): Pc {
    if w.Service? then s.service else s.monitor
  }

  function At(s: State, w: Who, pc: Pc): State {
    if w.Service? then s.(service := pc) else s.(monitor := pc)
  }

  /** Where a thread goes on behind its stopCapture. */
  function Back(w: Who): Pc {
    if w.Service? then Idle else Testing
  }

  datatype Step =
    | Arm | Spawn | Call
    | Poll(low: bool) | Fault | Test | Wake
    | Swap(w: Who) | Quiet(w: Who) | Reap | Lock(w: Who) | Look(w: Who) | Join(w: Who) | Unlock(w: Who)
    | Decide | Frame(fails: bool)

  predicate Enabled(s: State, t: Step) {
    match t
    case Arm => s.service.Arming?
    case Spawn => s.service.Spawning?
    case Call => s.service.Idle? && s.calls > 0
    case Poll(_) => s.monitor.Polling?
    case Fault => s.monitor.Faulting?
    case Test => s.monitor.Testing?
    case Wake => s.monitor.Dozing?
    case Swap(w) => PcOf(s, w).Swapping?
    case Quiet(w) => PcOf(s, w).Quieting?
    case Reap => s.service.Reaping? && s.monitor.Gone?
    case Lock(w) => PcOf(s, w).Locking? && s.mutex.None?
    case Look(w) => PcOf(s, w).Looking?
    case Join(w) => PcOf(s, w).JoiningCapture? && s.capture.Ended?
    case Unlock(w) => PcOf(s, w).Unlocking?
    case Decide => s.capture.Deciding?
    case Frame(_) => s.capture.Framing?
  }

  function Apply(s: State, t: Step): State
    requires Enabled(s, t)
  {
    match t
    case Arm => s.(flag := true, service := Spawning)
    case Spawn => s.(joinable := true, capture := Deciding, service := Idle)
    case Call => s.(service := Swapping, calls := s.calls - 1)
    case Poll(low) => s.(monitor := if low then Faulting else Testing)
    case Fault => s.(monitor := if s.flag then Swapping else Testing)
    case Test => s.(monitor := if s.monitoring then Dozing else Gone)
    case Wake => s.(monitor := Polling)
    case Swap(w) => if s.flag then At(s, w, Quieting).(flag := false, wins := s.wins + [w]) else At(s, w, Back(w))
    case Quiet(w) => At(s, w, if w.Service? then Reaping else Locking).(monitoring := false)
    case Reap => s.(service := Locking)
    case Lock(w) => At(s, w, Looking).(mutex := Some(w))
    case Look(w) => At(s, w, if s.joinable then JoiningCapture else Unlocking).(seen := Some(s.joinable))
    case Join(w) => At(s, w, Unlocking).(joinable := false, joins := s.joins + [w])
    case Unlock(w) => At(s, w, Back(w)).(mutex := None)
    case Decide => s.(capture := if s.flag then Framing else Ended)
    case Frame(fails) => s.(capture := if fails then Ended else Deciding)
  }

  // ---- what every step keeps ----

  /** Behind the won flag. */
  predicate Stopping(pc: Pc) {
    pc.Quieting? || pc.Reaping? || pc.Locking? || pc.Looking? || pc.JoiningCapture? || pc.Unlocking?
  }

  predicate Placed(s: State) {
    && (s.service.Arming? || s.service.Spawning? || s.service.Idle? || s.service.Swapping? || Stopping(s.service))
    && (s.monitor.Polling? || s.monitor.Faulting? || s.monitor.Testing? || s.monitor.Dozing? || s.monitor.Gone?
        || s.monitor.Swapping? || (Stopping(s.monitor) && !s.monitor.Reaping?))
  }

  /** At most one thread takes the flag. */
  predicate TakenOnce(s: State) {
    && |s.wins| <= 1
    && (s.flag ==> s.wins == [])
    && (!s.flag && !s.service.Arming? ==> |s.wins| == 1)
    && (s.service.Arming? ==> s.wins == [] && !s.flag)
  }

  /** And only that one stops. */
  predicate OneWinner(s: State) {
    && TakenOnce(s)
    && (Stopping(s.service) ==> s.wins == [Service])
    && (Stopping(s.monitor) ==> s.wins == [Monitor])
  }

  predicate InSection(pc: Pc) {
    pc.Looking? || pc.JoiningCapture? || pc.Unlocking?
  }

  predicate Held(s: State) {
    && (s.mutex == Some(Service) <==> InSection(s.service))
    && (s.mutex == Some(Monitor) <==> InSection(s.monitor))
  }

  /** The monitor stops once the winner quieted it, and a service that reaped it finds it gone. */
  predicate Quieted(s: State) {
    && (s.wins == [] ==> s.monitoring)
    && (Stopping(s.service) && !s.service.Quieting? ==> !s.monitoring)
    && (Stopping(s.monitor) && !s.monitor.Quieting? ==> !s.monitoring)
    && (s.monitor.Gone? ==> !s.monitoring)
    && ((s.service.Locking? || InSection(s.service)) ==> s.monitor.Gone?)
  }

  /** Is the start still before the assignment of tidCapture? */
  predicate Starting(s: State) {
    s.service.Arming? || s.service.Spawning?
  }

  /** The capture thread is there once it is assigned, and stays joinable until the winner, who found it,
      joins it. */
  predicate Handed(s: State) {
    && (Starting(s) <==> s.capture.Unborn?)
    && (Starting(s) ==> !s.joinable && s.joins == [] && s.seen != Some(true))
    && (!Starting(s) ==> s.joinable == (s.joins == []))
  }

  /** The joins are the winner's, of a thread it found. */
  predicate Joined(s: State) {
    && (s.joins == [] || (s.joins == s.wins && s.seen == Some(true) && s.capture.Ended?))
    && (s.service.JoiningCapture? || s.monitor.JoiningCapture? ==> s.joinable && s.seen == Some(true))
    && (s.seen == Some(false) ==> s.wins == [Monitor] && s.joins == [])
  }

  /** The winner looks once, behind the lock. */
  predicate Seen(s: State) {
    && (s.service.Unlocking? || s.monitor.Unlocking? ==> s.seen.Some? && (s.seen == Some(true) ==> s.joins != []))
    && (s.wins == [] ==> s.seen.None?)
  }

  predicate Unseen(s: State) {
    && ((s.service.Quieting? || s.service.Reaping? || s.service.Locking? || s.service.Looking?) ==> s.seen.None?)
    && ((s.monitor.Quieting? || s.monitor.Locking? || s.monitor.Looking?) ==> s.seen.None?)
  }

  /** When nobody is stopping any more, whoever won has looked. */
  predicate Looked(s: State) {
    s.wins != [] && !Stopping(s.service) && !Stopping(s.monitor) ==>
      s.seen.Some? && (s.seen == Some(true) ==> s.joins == s.wins)
  }

  predicate Inv(s: State) {
    Placed(s) && OneWinner(s) && Held(s) && Quieted(s) && Handed(s) && Joined(s) && Seen(s) && Unseen(s) && Looked(s)
  }

  lemma PlacedStep(s: State, t: Step)
    requires Placed(s) && Enabled(s, t)
    ensures Placed(Apply(s, t))
  {
  }

  lemma TakenOnceStep(s: State, t: Step)
    requires Placed(s) && TakenOnce(s) && Enabled(s, t)
    ensures TakenOnce(Apply(s, t))
  {
  }

  lemma OneWinnerStep(s: State, t: Step)
    requires Placed(s) && OneWinner(s) && Enabled(s, t)
    ensures OneWinner(Apply(s, t))
  {
    TakenOnceStep(s, t);
    if t.Swap? && s.flag {
      assert Apply(s, t).wins == [t.w];
    }
  }

  lemma HeldStep(s: State, t: Step)
    requires Placed(s) && OneWinner(s) && Held(s) && Enabled(s, t)
    ensures Held(Apply(s, t))
  {
  }

  lemma QuietedStep(s: State, t: Step)
    requires Placed(s) && OneWinner(s) && Quieted(s) && Enabled(s, t)
    ensures Quieted(Apply(s, t))
  {
  }

  lemma HandedStep(s: State, t: Step)
    requires Placed(s) && OneWinner(s) && Handed(s) && Joined(s) && Seen(s) && Unseen(s) && Enabled(s, t)
    ensures Handed(Apply(s, t))
  {
  }

  lemma JoinedStep(s: State, t: Step)
    requires Placed(s) && OneWinner(s) && Handed(s) && Joined(s) && Seen(s) && Unseen(s) && Enabled(s, t)
    ensures Joined(Apply(s, t))
  {
  }

  lemma SeenStep(s: State, t: Step)
    requires Placed(s) && OneWinner(s) && Joined(s) && Seen(s) && Enabled(s, t)
    ensures Seen(Apply(s, t))
  {
  }

  lemma UnseenStep(s: State, t: Step)
    requires Placed(s) && OneWinner(s) && Seen(s) && Unseen(s) && Enabled(s, t)
    ensures Unseen(Apply(s, t))
  {
  }

  lemma LookedStep(s: State, t: Step)
    requires Placed(s) && OneWinner(s) && Joined(s) && Seen(s) && Unseen(s) && Looked(s) && Enabled(s, t)
    ensures Looked(Apply(s, t))
  {
  }

  lemma StepKeeps(s: State, t: Step)
    requires Inv(s) && Enabled(s, t)
    ensures Inv(Apply(s, t))
  {
    PlacedStep(s, t);
    OneWinnerStep(s, t);
    HeldStep(s, t);
    QuietedStep(s, t);
    HandedStep(s, t);
    JoinedStep(s, t);
    SeenStep(s, t);
    UnseenStep(s, t);
    LookedStep(s, t);
  }

  // ---- runs ----

  ghost predicate Runs(s: State, steps: seq<Step>)
    decreases |steps|
  {
    steps == [] || (Enabled(s, steps[0]) && Runs(Apply(s, steps[0]), steps[1..]))
  }

  ghost function After(s: State, steps: seq<Step>): State
    requires Runs(s, steps)
    decreases |steps|
  {
    if steps == [] then s else After(Apply(s, steps[0]), steps[1..])
  }

  lemma {:induction false} RunKeeps(s: State, steps: seq<Step>)
    requires Inv(s) && Runs(s, steps)
    ensures Inv(After(s, steps))
    decreases |steps|
  {
    if steps == [] {
    } else {
      StepKeeps(s, steps[0]);
      RunKeeps(Apply(s, steps[0]), steps[1..]);
    }
  }

  /** At most one thread ever takes the flag, nobody else joins the capture thread, and it is joined at
      most once, and only when it has ended. */
  lemma AtMostOneStops(calls: nat, steps: seq<Step>)
    requires Runs(Started(calls), steps)
    ensures var s := After(Started(calls), steps);
            && |s.wins| <= 1
            && (s.joins == [] || (s.joins == s.wins && s.capture.Ended?))
            && forall w :: Stopping(PcOf(s, w)) ==> s.wins == [w]
  {
    RunKeeps(Started(calls), steps);
    var s := After(Started(calls), steps);
    forall w | Stopping(PcOf(s, w)) ensures s.wins == [w] {
      assert w == Service || w == Monitor;
    }
  }

  // ---- a stop request stops ----

  /** Requests are made once the start is through, and a service back from one, or past the flag, finds the
      flag down. */
  predicate Answered(s: State, calls: nat) {
    && s.calls <= calls
    && (Starting(s) ==> s.calls == calls)
    && (s.calls < calls && !s.service.Swapping? ==> !s.flag)
  }

  lemma AnsweredStep(s: State, t: Step, calls: nat)
    requires Placed(s) && OneWinner(s) && Answered(s, calls) && Enabled(s, t)
    ensures Answered(Apply(s, t), calls)
  {
  }

  lemma {:induction false} RunAnswers(s: State, steps: seq<Step>, calls: nat)
    requires Inv(s) && Answered(s, calls) && Runs(s, steps)
    ensures Inv(After(s, steps)) && Answered(After(s, steps), calls)
    decreases |steps|
  {
    if steps != [] {
      hide Inv, Answered, Apply, Enabled;
      StepKeeps(s, steps[0]);
      assert Inv(s) ==> Placed(s) && OneWinner(s) by { InvParts(s); }
      AnsweredStep(s, steps[0], calls);
      RunAnswers(Apply(s, steps[0]), steps[1..], calls);
    }
  }

  lemma InvParts(s: State)
    requires Inv(s)
    ensures Placed(s) && OneWinner(s)
  {
  }

  lemma {:induction false} RunCounts(s: State, steps: seq<Step>)
    requires Runs(s, steps)
    ensures After(s, steps).calls <= s.calls && (Call in steps ==> After(s, steps).calls < s.calls)
    decreases |steps|
  {
    if steps != [] {
      RunCounts(Apply(s, steps[0]), steps[1..]);
      assert steps == [steps[0]] + steps[1..];
    }
  }

  /** Whenever a stop request has returned, the flag is down and exactly one thread took it. If that was the
      service thread, the capture thread had ended and was joined before. */
  lemma RequestStops(calls: nat, steps: seq<Step>)
    requires Runs(Started(calls), steps)
    ensures var s := After(Started(calls), steps);
            s.service.Idle? && Call in steps ==>
              && !s.flag && |s.wins| == 1
              && (s.wins == [Service] ==> s.joins == [Service] && s.capture.Ended? && s.monitor.Gone?)
  {
    RunAnswers(Started(calls), steps, calls);
    RunCounts(Started(calls), steps);
    JoinedIfAssigned(calls, steps);
    RunGone(Started(calls), steps);
  }

  /** A service thread that is through with stopping has seen the monitor end. */
  predicate MonitorGone(s: State) {
    s.wins == [Service] && !Stopping(s.service) ==> s.monitor.Gone?
  }

  lemma {:induction false} RunGone(s: State, steps: seq<Step>)
    requires Inv(s) && MonitorGone(s) && Runs(s, steps)
    ensures MonitorGone(After(s, steps))
    decreases |steps|
  {
    if steps != [] {
      StepKeeps(s, steps[0]);
      GoneStep(s, steps[0]);
      RunGone(Apply(s, steps[0]), steps[1..]);
    }
  }

  lemma GoneStep(s: State, t: Step)
    requires Inv(s) && MonitorGone(s) && Enabled(s, t)
    ensures MonitorGone(Apply(s, t))
  {
    var u := Apply(s, t);
    assert s.monitor.Gone? ==> u.monitor.Gone?;
    assert u.wins == s.wins || Stopping(u.service) || Stopping(u.monitor);
    assert InSection(s.service) ==> s.monitor.Gone?;
    assert Stopping(s.service) && !Stopping(u.service) ==> InSection(s.service);
    assert Stopping(u.monitor) ==> u.wins == [Monitor];
  }

  // ---- a capture goes on until it is stopped ----

  /** Unless a frame failed, the capture thread ends only after the flag was taken. */
  predicate RunsOnUntilTaken(s: State) {
    s.capture.Ended? ==> s.wins != []
  }

  /** A continuous capture goes on until a thread takes the flag, or a frame fails. */
  lemma CaptureGoesOn(calls: nat, steps: seq<Step>)
    requires Runs(Started(calls), steps)
    requires forall i :: 0 <= i < |steps| ==> steps[i] != Frame(true)
    ensures After(Started(calls), steps).capture.Ended? ==> |After(Started(calls), steps).wins| == 1
  {
    CaptureRunsOn(Started(calls), steps);
    AtMostOneStops(calls, steps);
  }

  lemma {:induction false} CaptureRunsOn(s: State, steps: seq<Step>)
    requires Inv(s) && RunsOnUntilTaken(s) && Runs(s, steps)
    requires forall i :: 0 <= i < |steps| ==> steps[i] != Frame(true)
    ensures RunsOnUntilTaken(After(s, steps))
    decreases |steps|
  {
    if steps != [] {
      StepKeeps(s, steps[0]);
      RunsOnStep(s, steps[0]);
      CaptureRunsOn(Apply(s, steps[0]), steps[1..]);
    }
  }

  lemma RunsOnStep(s: State, t: Step)
    requires Inv(s) && RunsOnUntilTaken(s) && Enabled(s, t) && t != Frame(true)
    ensures RunsOnUntilTaken(Apply(s, t))
  {
    assert !s.flag && s.capture.Deciding? ==> s.wins != [];
    hide Seen, Unseen, Looked, Joined, Held, Quieted;
  }

  /** A frame that fails ends the capture thread for good. */
  lemma {:induction false} FailedFrameEnds(s: State, steps: seq<Step>)
    requires Runs(s, steps) && !Starting(s) && Inv(s)
    requires s.capture.Ended? || Frame(true) in steps
    ensures After(s, steps).capture.Ended?
    decreases |steps|
  {
    if steps != [] {
      assert steps == [steps[0]] + steps[1..];
      StepKeeps(s, steps[0]);
      FailedFrameEnds(Apply(s, steps[0]), steps[1..]);
    }
  }

  // ---- what the monitor does ----

  /** The monitor is between a poll of the storage and the test of its loop. */
  predicate InRound(pc: Pc) {
    pc.Faulting? || pc.Testing? || pc.Swapping? || Stopping(pc)
  }

  function PollsIn(steps: seq<Step>): nat {
    if steps == [] then 0 else (if steps[0].Poll? then 1 else 0) + PollsIn(steps[1..])
  }

  function TestsIn(steps: seq<Step>): nat {
    if steps == [] then 0 else (if steps[0].Test? then 1 else 0) + TestsIn(steps[1..])
  }

  lemma StepInRound(s: State, t: Step)
    requires Placed(s) && Enabled(s, t)
    ensures (if InRound(s.monitor) then 1 else 0) + (if t.Poll? then 1 else 0) ==
            (if InRound(Apply(s, t).monitor) then 1 else 0) + (if t.Test? then 1 else 0)
  {
  }

  /** Each round of the monitor polls the storage once. */
  lemma {:induction false} RoundsPoll(s: State, steps: seq<Step>)
    requires Placed(s) && Runs(s, steps)
    ensures (if InRound(s.monitor) then 1 else 0) + PollsIn(steps) ==
            (if InRound(After(s, steps).monitor) then 1 else 0) + TestsIn(steps)
    decreases |steps|
  {
    if steps != [] {
      hide Apply, Enabled, InRound, Placed;
      StepInRound(s, steps[0]);
      PlacedStep(s, steps[0]);
      RoundsPoll(Apply(s, steps[0]), steps[1..]);
    }
  }

  /** The monitor goes for the flag only when it found the storage full and the flag up. */
  lemma OnlyFaultsStop(s: State, t: Step)
    requires Enabled(s, t)
    ensures Apply(s, t).monitor.Swapping? && !s.monitor.Swapping? ==> t == Fault && s.flag
    ensures Apply(s, t).monitor.Faulting? && !s.monitor.Faulting? ==> t == Poll(true)
  {
  }

  predicate MonitorCalm(s: State) {
    !s.monitor.Faulting? && !s.monitor.Swapping? && Monitor !in s.wins && !Stopping(s.monitor)
  }

  lemma CalmStep(s: State, t: Step)
    requires MonitorCalm(s) && Enabled(s, t) && t != Poll(true)
    ensures MonitorCalm(Apply(s, t))
  {
  }

  /** Without a storage fault the service alone stops captures. */
  lemma {:induction false} NoFaultNoMonitor(s: State, steps: seq<Step>)
    requires MonitorCalm(s) && Runs(s, steps) && Poll(true) !in steps
    ensures Monitor !in After(s, steps).wins
    decreases |steps|
  {
    if steps != [] {
      assert steps == [steps[0]] + steps[1..];
      CalmStep(s, steps[0]);
      NoFaultNoMonitor(Apply(s, steps[0]), steps[1..]);
    }
  }

  // ---- nobody waits forever ----

  /** The winner is still on its way through stopCapture. */
  predicate InProgress(s: State) {
    Stopping(s.service) || Stopping(s.monitor)
  }

  function Winner(s: State): Who {
    if Stopping(s.service) then Service else Monitor
  }

  datatype Mover = Thread(who: Who) | CaptureThread

  /** Who has to move for the stop to go on: the winner, or the thread it waits for. */
  function MoverOf(s: State): Mover {
    var w := Winner(s);
    if PcOf(s, w).Reaping? && !s.monitor.Gone? then Thread(Monitor)
    else if PcOf(s, w).JoiningCapture? && !s.capture.Ended? then CaptureThread
    else Thread(w)
  }

  function MovesBy(t: Step): Mover {
    match t
    case Arm => Thread(Service)
    case Spawn => Thread(Service)
    case Call => Thread(Service)
    case Poll(_) => Thread(Monitor)
    case Fault => Thread(Monitor)
    case Test => Thread(Monitor)
    case Wake => Thread(Monitor)
    case Reap => Thread(Service)
    case Decide => CaptureThread
    case Frame(_) => CaptureThread
    case Swap(w) => Thread(w)
    case Quiet(w) => Thread(w)
    case Lock(w) => Thread(w)
    case Look(w) => Thread(w)
    case Join(w) => Thread(w)
    case Unlock(w) => Thread(w)
  }

  /** How far a quieted monitor is from its end, while the flag is down. */
  function MonitorRank(pc: Pc): nat {
    match pc
    case Dozing => 5
    case Polling => 4
    case Faulting => 3
    case Swapping => 2
    case Testing => 1
    case _ => 0
  }

  function CaptureRank(c: Capture): nat {
    match c
    case Framing => 2
    case Deciding => 1
    case _ => 0
  }

  function Distance(s: State): nat {
    if !InProgress(s) then 0
    else
      match PcOf(s, Winner(s))
      case Quieting => 30
      case Reaping => 20 + MonitorRank(s.monitor)
      case Locking => 10
      case Looking => 9
      case JoiningCapture => 5 + CaptureRank(s.capture)
      case _ => 1
  }

  function WinnersStep(s: State): Step {
    var w := Winner(s);
    match PcOf(s, w)
    case Quieting => Quiet(w)
    case Reaping => Reap
    case Locking => Lock(w)
    case Looking => Look(w)
    case JoiningCapture => Join(w)
    case _ => Unlock(w)
  }

  function MonitorsStep(s: State): Step {
    match s.monitor
    case Polling => Poll(false)
    case Faulting => Fault
    case Dozing => Wake
    case Swapping => Swap(Monitor)
    case _ => Test
  }

  /** The thread that has to move can. */
  lemma MoverCanMove(s: State) returns (t: Step)
    requires Inv(s) && InProgress(s)
    ensures Enabled(s, t) && MovesBy(t) == MoverOf(s)
  {
    if s.mutex.Some? {
      var w := s.mutex.value;
      assert w == Service || w == Monitor;
      assert InSection(PcOf(s, w));
    }
    match MoverOf(s)
    case Thread(w) => t := if w == Winner(s) then WinnersStep(s) else MonitorsStep(s);
    case CaptureThread => t := if s.capture.Deciding? then Decide else Frame(false);
  }

  /** Its step brings the stop closer to its end. */
  lemma MoverAdvances(s: State, t: Step)
    requires Inv(s) && InProgress(s) && Enabled(s, t) && MovesBy(t) == MoverOf(s)
    ensures Distance(Apply(s, t)) < Distance(s)
  {
    hide Held, Handed, Joined, Seen, Unseen, Looked;
  }

  lemma OthersKeepMover(s: State, t: Step)
    requires Inv(s) && InProgress(s) && Enabled(s, t) && MovesBy(t) != MoverOf(s)
    ensures MoverOf(Apply(s, t)) == MoverOf(s) && InProgress(Apply(s, t))
  {
    assert s.capture.Unborn? ==> !s.monitor.JoiningCapture? && !s.service.JoiningCapture?;
    hide Held, Handed, Joined, Seen, Unseen, Looked, Distance;
  }

  lemma OthersKeepDistance(s: State, t: Step)
    requires Inv(s) && InProgress(s) && Enabled(s, t) && MovesBy(t) != MoverOf(s)
    ensures Distance(Apply(s, t)) <= Distance(s)
  {
    assert s.capture.Unborn? ==> !s.monitor.JoiningCapture? && !s.service.JoiningCapture?;
    hide Held, Handed, Joined, Seen, Unseen, Looked;
  }

  /** No other step takes it further away. */
  lemma OthersDoNotDisturb(s: State, t: Step)
    requires Inv(s) && InProgress(s) && Enabled(s, t) && MovesBy(t) != MoverOf(s)
    ensures Distance(Apply(s, t)) <= Distance(s)
    ensures MoverOf(Apply(s, t)) == MoverOf(s) && InProgress(Apply(s, t))
  {
    hide *;
    OthersKeepDistance(s, t);
    OthersKeepMover(s, t);
  }

  lemma StopAdvances(s: State, t: Step)
    requires Inv(s) && InProgress(s) && Enabled(s, t)
    ensures Distance(Apply(s, t)) <= Distance(s)
    ensures MovesBy(t) == MoverOf(s) ==> Distance(Apply(s, t)) < Distance(s)
    ensures MovesBy(t) != MoverOf(s) ==> MoverOf(Apply(s, t)) == MoverOf(s) && InProgress(Apply(s, t))
  {
    hide Inv, Distance, MoverOf, Apply;
    if MovesBy(t) == MoverOf(s) {
      MoverAdvances(s, t);
    } else {
      OthersDoNotDisturb(s, t);
    }
  }

  /** How many steps of a run were taken by whoever the stop was waiting for. */
  function AdvancingSteps(s: State, steps: seq<Step>): nat
    requires Runs(s, steps)
    decreases |steps|
  {
    if steps == [] then 0
    else
      (if InProgress(s) && MovesBy(steps[0]) == MoverOf(s) then 1 else 0)
      + AdvancingSteps(Apply(s, steps[0]), steps[1..])
  }

  lemma OnceStoppedForGood(s: State, t: Step)
    requires Inv(s) && s.wins != [] && !InProgress(s) && Enabled(s, t)
    ensures !InProgress(Apply(s, t)) && Apply(s, t).wins == s.wins
  {
  }

  lemma InProgressHasWon(s: State, t: Step)
    requires Inv(s) && InProgress(s) && Enabled(s, t)
    ensures Apply(s, t).wins == s.wins && s.wins != []
  {
  }

  /** Once the flag is taken, the stop is over after at most Distance steps of those it waits for. */
  lemma {:induction false} StopIsBounded(s: State, steps: seq<Step>)
    requires Inv(s) && s.wins != [] && Runs(s, steps)
    ensures AdvancingSteps(s, steps) + Distance(After(s, steps)) <= Distance(s)
    decreases |steps|
  {
    if steps == [] {
    } else {
      var u := Apply(s, steps[0]);
      StepKeeps(s, steps[0]);
      if InProgress(s) {
        StopAdvances(s, steps[0]);
        InProgressHasWon(s, steps[0]);
      } else {
        OnceStoppedForGood(s, steps[0]);
      }
      StopIsBounded(u, steps[1..]);
    }
  }

  /** In every reachable state in which a stop is under way, the one thread it depends on is able to
      move, its step shortens the rest of the way, no other thread's step lengthens it or makes it
      depend on another thread, and the loser of the race waits for nobody. */
  lemma NobodyWaitsForever(calls: nat, steps: seq<Step>)
    requires Runs(Started(calls), steps)
    requires InProgress(After(Started(calls), steps))
    ensures var s := After(Started(calls), steps);
            && (exists t :: Enabled(s, t) && MovesBy(t) == MoverOf(s))
            && (forall t :: Enabled(s, t) ==>
                  && Distance(Apply(s, t)) <= Distance(s)
                  && (if MovesBy(t) == MoverOf(s) then Distance(Apply(s, t)) < Distance(s)
                      else InProgress(Apply(s, t)) && MoverOf(Apply(s, t)) == MoverOf(s)))
            && (forall w :: PcOf(s, w).Swapping? ==> Enabled(s, Swap(w)))
  {
    RunKeeps(Started(calls), steps);
    var s := After(Started(calls), steps);
    var t0 := MoverCanMove(s);
    forall t | Enabled(s, t)
      ensures Distance(Apply(s, t)) <= Distance(s)
      ensures if MovesBy(t) == MoverOf(s) then Distance(Apply(s, t)) < Distance(s)
              else InProgress(Apply(s, t)) && MoverOf(Apply(s, t)) == MoverOf(s)
    {
      StopAdvances(s, t);
    }
  }

  // ---- is the capture thread joined? ----

  /** When a stop is over, the winner has joined the capture thread exactly if it looked at tidCapture
      behind its assignment; and a service thread that wins always did. */
  lemma JoinedIfAssigned(calls: nat, steps: seq<Step>)
    requires Runs(Started(calls), steps)
    ensures var s := After(Started(calls), steps);
            s.wins != [] && !InProgress(s) ==>
              && (s.joins == s.wins <==> s.seen == Some(true))
              && (s.joins == [] <==> s.seen == Some(false))
              && (s.wins == [Service] ==> s.seen == Some(true))
  {
    RunKeeps(Started(calls), steps);
    var s := After(Started(calls), steps);
    if s.seen.Some? {
      assert s.seen == Some(true) || s.seen == Some(false) by {
        assert s.seen.value == true || s.seen.value == false;
      }
    }
  }

  /** The winner missed the assignment: nobody joins the capture thread until the next start. */
  lemma {:induction false} MissedForGood(s: State, steps: seq<Step>)
    requires Inv(s) && s.seen == Some(false) && Runs(s, steps)
    ensures After(s, steps).seen == Some(false) && After(s, steps).joins == []
    decreases |steps|
  {
    if steps == [] {
    } else {
      StepKeeps(s, steps[0]);
      MissedStays(s, steps[0]);
      MissedForGood(Apply(s, steps[0]), steps[1..]);
    }
  }

  lemma MissedStays(s: State, t: Step)
    requires Inv(s) && s.seen == Some(false) && Enabled(s, t)
    ensures Apply(s, t).seen == Some(false)
  {
  }

  const MISS: seq<Step> := 
    [Arm, Poll(true), Fault, Swap(Monitor), Quiet(Monitor), Lock(Monitor), Look(Monitor), Unlock(Monitor), Spawn]

  lemma RunsOn(s: State, t: Step, rest: seq<Step>)
    requires Enabled(s, t) && Runs(Apply(s, t), rest)
    ensures Runs(s, [t] + rest) && After(s, [t] + rest) == After(Apply(s, t), rest)
  {
  }

  /** The flag is taken by the monitor before the capture thread is assigned. */
  function Taken(calls: nat): State {
    State(false, true, false, None, Spawning, Quieting, Unborn, calls, [Monitor], [], None)
  }

  /** The monitor is through with stopCapture, and the start completes. */
  function Missed(calls: nat): State {
    State(false, false, true, None, Idle, Testing, Deciding, calls, [Monitor], [], Some(false))
  }

  lemma TakenReached(calls: nat, rest: seq<Step>)
    requires Runs(Taken(calls), rest)
    ensures var steps := [Arm] + ([Poll(true)] + ([Fault] + ([Swap(Monitor)] + rest)));
            Runs(Started(calls), steps) && After(Started(calls), steps) == After(Taken(calls), rest)
  {
    var s1 := Apply(Started(calls), Arm);
    var s2 := Apply(s1, Poll(true));
    var s3 := Apply(s2, Fault);
    assert Apply(s3, Swap(Monitor)) == Taken(calls);
    RunsOn(s3, Swap(Monitor), rest);
    RunsOn(s2, Fault, [Swap(Monitor)] + rest);
    RunsOn(s1, Poll(true), [Fault] + ([Swap(Monitor)] + rest));
    RunsOn(Started(calls), Arm, [Poll(true)] + ([Fault] + ([Swap(Monitor)] + rest)));
  }

  lemma MissedReached(calls: nat)
    ensures var steps :=
              [Quiet(Monitor)] + ([Lock(Monitor)] + ([Look(Monitor)] + ([Unlock(Monitor)] + ([Spawn] + []))));
            Runs(Taken(calls), steps) && After(Taken(calls), steps) == Missed(calls)
  {
    var s1 := Apply(Taken(calls), Quiet(Monitor));
    var s2 := Apply(s1, Lock(Monitor));
    var s3 := Apply(s2, Look(Monitor));
    var s4 := Apply(s3, Unlock(Monitor));
    assert Apply(s4, Spawn) == Missed(calls);
    RunsOn(s4, Spawn, []);
    RunsOn(s3, Unlock(Monitor), [Spawn] + []);
    RunsOn(s2, Look(Monitor), [Unlock(Monitor)] + ([Spawn] + []));
    RunsOn(s1, Lock(Monitor), [Look(Monitor)] + ([Unlock(Monitor)] + ([Spawn] + [])));
    RunsOn(Taken(calls), Quiet(Monitor), [Lock(Monitor)] + ([Look(Monitor)] + ([Unlock(Monitor)] + ([Spawn] + []))));
  }

  /** That does happen: a storage fault between the two assignments of startCapture. The monitor takes
      the flag, finds no thread to join, and the thread started then stays joinable. */
  lemma TheMonitorCanMiss(calls: nat)
    ensures Runs(Started(calls), MISS) && After(Started(calls), MISS) == Missed(calls)
  {
    MissedReached(calls);
    var rest := [Quiet(Monitor)] + ([Lock(Monitor)] + ([Look(Monitor)] + ([Unlock(Monitor)] + ([Spawn] + []))));
    TakenReached(calls, rest);
    assert [Arm] + ([Poll(true)] + ([Fault] + ([Swap(Monitor)] + rest))) == MISS;
  }
}
