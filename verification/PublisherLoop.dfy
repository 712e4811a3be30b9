/** The publisher's timer loop: one run at a time, and a shutdown after which nothing can start.
    The event loop of the runtime is modelled by the timers that are armed and the runs in
    progress; between events everything else may happen in any order. */
module PublisherLoop {
  import opened Wrappers

  type TimerId = nat

  datatype Shutdown = NotAsked | Draining | Returned

  datatype LoopState = LoopState(
    initialized: bool, running: bool, stopping: bool, timer: Option<TimerId>,
    armed: set<TimerId>, nextTimer: TimerId, activeRuns: nat, shutdown: Shutdown)

  datatype LoopEvent =
    | ModuleInit
    | TimerFires(id: TimerId)
    | RunEnds
    | ShutdownAsked
    | ShutdownPolls

  const START := LoopState(false, false, false, None, {}, 0, 0, NotAsked)

  predicate Possible(s: LoopState, e: LoopEvent) {
    match e
    case ModuleInit => !s.initialized
    case TimerFires(id) => id in s.armed
    case RunEnds => s.activeRuns > 0
    case ShutdownAsked => s.shutdown == NotAsked
    case ShutdownPolls => s.shutdown == Draining
  }

  function ScheduleNextRun(s: LoopState): LoopState {
    if s.stopping then s
    else s.(timer := Some(s.nextTimer), armed := s.armed + {s.nextTimer}, nextTimer := s.nextTimer + 1)
  }

  function RunLoop(s: LoopState): LoopState {
    if s.running then ScheduleNextRun(s)
    else s.(running := true, activeRuns := s.activeRuns + 1)
  }

  function After(s: LoopState, e: LoopEvent): LoopState
    requires Possible(s, e)
  {
    match e
    case ModuleInit => ScheduleNextRun(s.(initialized := true))
    case TimerFires(id) => RunLoop(s.(armed := s.armed - {id}))
    case RunEnds => ScheduleNextRun(s.(running := false, activeRuns := s.activeRuns - 1))
    case ShutdownAsked =>
      s.(stopping := true, shutdown := Draining,
         armed := if s.timer.Some? then s.armed - {s.timer.value} else s.armed)
    case ShutdownPolls => if s.running then s else s.(shutdown := Returned)
  }

  class PublisherLoop {
    var initialized: bool
    var running: bool
    var stopping: bool
    var timer: Option<TimerId>
    var armed: set<TimerId>
    var nextTimer: TimerId
    var activeRuns: nat
    var shutdown: Shutdown

    function View(): LoopState
      reads this
    {
      LoopState(initialized, running, stopping, timer, armed, nextTimer, activeRuns, shutdown)
    }

    constructor ()
      ensures View() == START
    {
      initialized, running, stopping, timer := false, false, false, None;
      armed, nextTimer, activeRuns, shutdown := {}, 0, 0, NotAsked;
    }

    method ScheduleNext()
      modifies this
      ensures View() == ScheduleNextRun(old(View()))
    {
      if stopping { return; }
      timer := Some(nextTimer);
      armed := armed + {nextTimer};
      nextTimer := nextTimer + 1;
    }

    method OnModuleInit()
      requires Possible(View(), ModuleInit)
      modifies this
      ensures View() == After(old(View()), ModuleInit)
    {
      initialized := true;
      ScheduleNext();
    }

    method OnTimer(id: TimerId)
      requires Possible(View(), TimerFires(id))
      modifies this
      ensures View() == After(old(View()), TimerFires(id))
    {
      armed := armed - {id};
      if running {
        ScheduleNext();
      } else {
        running := true;
        activeRuns := activeRuns + 1;
      }
    }

    /** The run has completed or thrown; either way the loop goes on. */
    method OnRunEnd()
      requires Possible(View(), RunEnds)
      modifies this
      ensures View() == After(old(View()), RunEnds)
    {
      activeRuns := activeRuns - 1;
      running := false;
      ScheduleNext();
    }

    method OnApplicationShutdown()
      requires Possible(View(), ShutdownAsked)
      modifies this
      ensures View() == After(old(View()), ShutdownAsked)
    {
      stopping := true;
      shutdown := Draining;
      if timer.Some? { armed := armed - {timer.value}; }
    }

    method PollShutdown()
      requires Possible(View(), ShutdownPolls)
      modifies this
      ensures View() == After(old(View()), ShutdownPolls)
      ensures shutdown == (if running then Draining else Returned)
    {
      if !running { shutdown := Returned; }
    }
  }

  /** At most one timer or run; exactly one from initialisation until stopping. */
  ghost predicate LoopInv(s: LoopState) {
    && s.activeRuns == (if s.running then 1 else 0)
    && (s.armed == {} || (s.timer.Some? && s.armed == {s.timer.value} && !s.running))
    && (s.initialized && !s.stopping ==> s.running || s.armed != {})
    && (!s.initialized ==> !s.running && s.armed == {})
    && (s.stopping <==> s.shutdown != NotAsked)
    && (s.stopping ==> s.armed == {})
    && (s.shutdown == Returned ==> !s.running)
  }

  ghost predicate LoopRuns(s: LoopState, events: seq<LoopEvent>, t: LoopState)
    decreases |events|
  {
    if events == [] then s == t
    else Possible(s, events[0]) && LoopRuns(After(s, events[0]), events[1..], t)
  }

  lemma LoopStep(s: LoopState, e: LoopEvent)
    requires LoopInv(s) && Possible(s, e)
    ensures LoopInv(After(s, e))
    ensures s.shutdown == Returned ==> After(s, e).shutdown == Returned
  {
  }

  lemma {:induction false} LoopInvRun(s: LoopState, events: seq<LoopEvent>, t: LoopState)
    requires LoopInv(s) && LoopRuns(s, events, t)
    ensures LoopInv(t) && (s.shutdown == Returned ==> t.shutdown == Returned)
    decreases |events|
  {
    if events != [] {
      LoopStep(s, events[0]);
      LoopInvRun(After(s, events[0]), events[1..], t);
    }
  }

  /** A shutdown that has been asked for does return: as soon as no run is active a poll ends it, and a run that
      is active need only end first. */
  lemma ShutdownReturns(events: seq<LoopEvent>, s: LoopState)
    requires LoopRuns(START, events, s) && s.shutdown == Draining
    ensures s.activeRuns == 0 ==> Possible(s, ShutdownPolls) && After(s, ShutdownPolls).shutdown == Returned
    ensures s.activeRuns > 0 ==>
      && Possible(s, RunEnds) && Possible(After(s, RunEnds), ShutdownPolls)
      && After(After(s, RunEnds), ShutdownPolls).shutdown == Returned
  {
    LoopInvRun(START, events, s);
  }

  /** A timer that fires while no run is active starts one. */
  lemma TimerStartsRun(events: seq<LoopEvent>, s: LoopState, id: TimerId)
    requires LoopRuns(START, events, s) && Possible(s, TimerFires(id))
    ensures s.activeRuns == 0 && After(s, TimerFires(id)).activeRuns == 1 && !s.stopping
  {
    LoopInvRun(START, events, s);
  }

  /** Over every interleaving of timers, runs ending and shutdown: the armed timers and active runs
      number at most one, exactly one from initialisation until stopping; and from the moment
      shutdown has returned there are none, and nothing that happens starts one. */
  lemma SingleFlight(events: seq<LoopEvent>, s: LoopState, more: seq<LoopEvent>, t: LoopState)
    requires LoopRuns(START, events, s) && LoopRuns(s, more, t)
    ensures |s.armed| + s.activeRuns <= 1
    ensures s.initialized && !s.stopping ==> |s.armed| + s.activeRuns == 1
    ensures s.shutdown == Returned ==> t.armed == {} && t.activeRuns == 0
  {
    LoopInvRun(START, events, s);
    LoopInvRun(s, more, t);
  }
}
