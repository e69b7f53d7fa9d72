/**
  The dispatcher: a queue of tasks under a mutex, a condition variable, and one worker thread.

  Every step below is atomic in the program: a region between locking and unlocking the mutex (or
  starting to wait), a read of the state outside it, or the end of a task.  Any interleaving of
  steps is a run.
 */
module Dispatcher {
  type Task = nat

  datatype State = STOPPED | STARTED | STOPPING

  /** Where the worker thread stands. */
  datatype Worker =
    | NoThread
    | Testing                       // about to read the state, without the mutex
    | Locking                       // has read STARTED, about to lock the mutex
    | Blocked                       // waiting for the signal
    | Woken                         // signalled, or woken for no reason; about to get the mutex back
    | Running(task: Task)
    | Draining                      // has read that it is to stop, about to take the whole queue
    | RunningRest(rest: seq<Task>)
    | Finishing                     // about to report that it has stopped

  /** The dispatcher, and what has happened: tasks accepted and taken so far, and whether any were urgent. */
  datatype System = System(state: State, tasks: seq<Task>, worker: Worker,
                           accepted: seq<Task>, taken: seq<Task>, urgency: bool)

  const INITIAL := System(STOPPED, [], NoThread, [], [], false)

  datatype Event =
    | AddTask(task: Task, urgent: bool)
    | Start
    | Stop
    | Work              // the worker's next step
    | SpuriousWakeup

  // ---------------------------------------------------------------- the steps

  /** Wakes the worker if it is waiting; otherwise the signal is lost. */
  function NotifyOne(s: System): System {
    if s.worker == Blocked then s.(worker := Woken) else s
  }

  function AddStep(s: System, task: Task, urgent: bool): System {
    if s.state == STOPPING then s else
    var s' := s.(tasks := if urgent then [task] + s.tasks else s.tasks + [task],
                 accepted := s.accepted + [task], urgency := s.urgency || urgent);
    if |s'.tasks| == 1 then NotifyOne(s') else s'
  }

  function StartStep(s: System): System {
    if s.state == STOPPED then s.(state := STARTED, worker := Testing) else s
  }

  function StopStep(s: System): System {
    if s.state != STARTED then s else
    var s' := s.(state := STOPPING);
    if s'.tasks == [] then NotifyOne(s') else s'
  }

  /** With the mutex held and nothing to wait for. */
  function TakeStep(s: System): System {
    if s.state != STARTED || s.tasks == [] then s.(worker := Testing)
    else s.(worker := Running(s.tasks[0]), tasks := s.tasks[1..], taken := s.taken + [s.tasks[0]])
  }

  function WorkStep(s: System): System {
    match s.worker
    case NoThread => s
    case Testing => s.(worker := if s.state == STARTED then Locking else Draining)
    case Locking => if s.tasks == [] then s.(worker := Blocked) else TakeStep(s)
    case Blocked => s
    case Woken => TakeStep(s)
    case Running(_) => s.(worker := Testing)
    case Draining => s.(worker := RunningRest(s.tasks), tasks := [])
    case RunningRest(rest) =>
      if rest == [] then s.(worker := Finishing)
      else s.(worker := RunningRest(rest[1..]), taken := s.taken + [rest[0]])
    case Finishing => s.(state := STOPPED, worker := NoThread)
  }

  function Step(s: System, e: Event): System {
    match e
    case AddTask(task, urgent) => AddStep(s, task, urgent)
    case Start => StartStep(s)
    case Stop => StopStep(s)
    case Work => WorkStep(s)
    case SpuriousWakeup => if s.worker == Blocked then s.(worker := Woken) else s
  }

  function Run(s: System, es: seq<Event>): System {
    if es == [] then s else Step(Run(s, es[..|es| - 1]), es[|es| - 1])
  }

  // ---------------------------------------------------------------- what every run keeps

  /** Tasks the worker has moved out of the queue but not begun. */
  function InHand(s: System): seq<Task> {
    if s.worker.RunningRest? then s.worker.rest else []
  }

  /** Nothing is lost, and nothing is taken twice. */
  ghost predicate Conserved(s: System) {
    multiset(s.accepted) == multiset(s.taken) + multiset(InHand(s)) + multiset(s.tasks)
  }

  /** Without urgent tasks, everything happens in the order of acceptance. */
  ghost predicate Ordered(s: System) {
    !s.urgency ==> s.accepted == s.taken + InHand(s) + s.tasks
  }

  /** A waiting worker has nothing to do, and the thread and the state agree. */
  ghost predicate Coherent(s: System) {
    && (s.worker == Blocked ==> s.tasks == [])
    && (s.state == STOPPED <==> s.worker == NoThread)
    && (s.worker.Draining? || s.worker.RunningRest? || s.worker.Finishing? ==> s.state == STOPPING)
    && (s.worker.RunningRest? || s.worker.Finishing? ==> s.tasks == [])
  }

  ghost predicate Valid(s: System) {
    Conserved(s) && Ordered(s) && Coherent(s)
  }

  lemma StepCoherent(s: System, e: Event)
    requires Coherent(s)
    ensures Coherent(Step(s, e))
  {
  }

  lemma MultisetCons(t: Task, rest: seq<Task>)
    ensures multiset([t] + rest) == multiset{t} + multiset(rest)
    ensures multiset(rest + [t]) == multiset{t} + multiset(rest)
  {
  }

  lemma AddConserves(s: System, task: Task, urgent: bool)
    requires Conserved(s)
    ensures Conserved(AddStep(s, task, urgent))
  {
    var s' := AddStep(s, task, urgent);
    if s.state != STOPPING {
      MultisetCons(task, s.tasks);
      MultisetCons(task, s.accepted);
      AddShape(s, task, urgent);
      hide AddStep, InHand;
      assert multiset(s'.tasks) == multiset{task} + multiset(s.tasks);
    }
  }

  lemma AddShape(s: System, task: Task, urgent: bool)
    requires s.state != STOPPING
    ensures var s' := AddStep(s, task, urgent);
            && s'.tasks == (if urgent then [task] + s.tasks else s.tasks + [task])
            && s'.accepted == s.accepted + [task] && s'.taken == s.taken && InHand(s') == InHand(s)
  {
  }

  lemma AddOrders(s: System, task: Task, urgent: bool)
    requires Ordered(s)
    ensures Ordered(AddStep(s, task, urgent))
  {
    var s' := AddStep(s, task, urgent);
    assert InHand(s') == InHand(s);
    assert s.taken + InHand(s) + (s.tasks + [task]) == (s.taken + InHand(s) + s.tasks) + [task];
  }

  /** The head of a sequence becomes the newest of the tasks taken. */
  lemma TakeHead(taken: seq<Task>, s: seq<Task>)
    requires s != []
    ensures multiset(taken + [s[0]]) + multiset(s[1..]) == multiset(taken) + multiset(s)
    ensures (taken + [s[0]]) + s[1..] == taken + s
  {
    assert s == [s[0]] + s[1..];
    MultisetCons(s[0], s[1..]);
    MultisetCons(s[0], taken);
  }

  lemma TakeKeeps(s: System)
    requires Conserved(s) && Ordered(s) && !s.worker.RunningRest?
    ensures Conserved(TakeStep(s)) && Ordered(TakeStep(s))
  {
    if s.state == STARTED && s.tasks != [] {
      TakeHead(s.taken, s.tasks);
      assert s.taken + [] == s.taken && (s.taken + [s.tasks[0]]) + [] == s.taken + [s.tasks[0]];
    }
  }

  lemma RestKeeps(s: System)
    requires Conserved(s) && Ordered(s) && Coherent(s) && s.worker.RunningRest? && s.worker.rest != []
    ensures Conserved(WorkStep(s)) && Ordered(WorkStep(s))
  {
    TakeHead(s.taken, s.worker.rest);
  }

  lemma WorkKeeps(s: System)
    requires Conserved(s) && Ordered(s) && Coherent(s)
    ensures Conserved(WorkStep(s)) && Ordered(WorkStep(s))
  {
    hide Conserved, Ordered;
    match s.worker
    case Locking => if s.tasks == [] { PauseKeeps(s, Blocked); } else { TakeKeeps(s); }
    case Woken => TakeKeeps(s);
    case Testing => PauseKeeps(s, if s.state == STARTED then Locking else Draining);
    case Running(_) => PauseKeeps(s, Testing);
    case Draining => DrainKeeps(s);
    case RunningRest(rest) => if rest == [] { PauseKeeps(s, Finishing); } else { RestKeeps(s); }
    case Finishing => PauseKeeps(s, NoThread);
    case NoThread =>
    case Blocked =>
  }

  /** Steps that touch no task. */
  lemma PauseKeeps(s: System, w: Worker)
    requires Conserved(s) && Ordered(s) && InHand(s) == [] && !w.RunningRest?
    ensures Conserved(s.(worker := w)) && Ordered(s.(worker := w))
    ensures Conserved(s.(worker := w, state := STOPPED)) && Ordered(s.(worker := w, state := STOPPED))
  {
  }

  lemma DrainKeeps(s: System)
    requires Conserved(s) && Ordered(s) && s.worker.Draining?
    ensures Conserved(WorkStep(s)) && Ordered(WorkStep(s))
  {
    assert s.taken + s.tasks + [] == s.taken + [] + s.tasks;
  }

  lemma StepKeeps(s: System, e: Event)
    requires Valid(s)
    ensures Valid(Step(s, e))
  {
    hide Conserved, Ordered, Coherent, AddStep, WorkStep;
    StepCoherent(s, e);
    match e
    case AddTask(task, urgent) => AddConserves(s, task, urgent); AddOrders(s, task, urgent);
    case Work => WorkKeeps(s);
    case Start => IdleKeeps(s, e);
    case Stop => IdleKeeps(s, e);
    case SpuriousWakeup => IdleKeeps(s, e);
  }

  lemma IdleKeeps(s: System, e: Event)
    requires Conserved(s) && Ordered(s) && Coherent(s) && e in {Start, Stop, SpuriousWakeup}
    ensures Conserved(Step(s, e)) && Ordered(Step(s, e))
  {
    assert InHand(Step(s, e)) == InHand(s);
  }

  /** Over every interleaving of any number of producers, a stopper and the worker. */
  lemma {:induction false} RunKeeps(s: System, es: seq<Event>)
    requires Valid(s)
    ensures Valid(Run(s, es))
  {
    if es != [] {
      RunKeeps(s, es[..|es| - 1]);
      StepKeeps(Run(s, es[..|es| - 1]), es[|es| - 1]);
    }
  }

  /** Order: what has been taken so far is a prefix of what was accepted, unless something was urgent. */
  lemma ExecutionOrder(es: seq<Event>)
    ensures var s := Run(INITIAL, es); !s.urgency ==> s.taken <= s.accepted
  {
    RunKeeps(INITIAL, es);
    var s := Run(INITIAL, es);
    assert s.taken + InHand(s) + s.tasks == s.taken + (InHand(s) + s.tasks);
  }

  /** The moment the worker reports that it has stopped, every accepted task has been taken, once. */
  lemma DrainedWhenStopped(es: seq<Event>)
    requires Run(INITIAL, es).worker == Finishing
    ensures var s := Run(INITIAL, es + [Work]);
            && s.state == STOPPED && s.tasks == []
            && multiset(s.taken) == multiset(s.accepted)
            && (!s.urgency ==> s.taken == s.accepted)
  {
    RunKeeps(INITIAL, es);
    assert (es + [Work])[..|es|] == es;
    var s := Run(INITIAL, es);
    assert s.taken + [] + [] == s.taken;
  }

  // ---------------------------------------------------------------- no task is overlooked

  /** A queue with something in it never meets a sleeping worker. */
  lemma NoMissedTask(es: seq<Event>)
    ensures var s := Run(INITIAL, es); s.worker == Blocked ==> s.tasks == []
  {
    RunKeeps(INITIAL, es);
  }

  /** There is something to do, and the dispatcher is to do it. */
  predicate Busy(s: System) {
    s.state == STARTED && s.tasks != []
  }

  /** Steps the worker needs until it takes the next task. */
  function StepsToTake(s: System): nat {
    match s.worker
    case Running(_) => 3
    case Testing => 2
    case _ => 1
  }

  /** Every step of a busy dispatcher brings the next task closer, or leaves it where it is. */
  lemma BusyStep(s: System, e: Event)
    requires Valid(s) && Busy(s) && e != Stop
    ensures var s' := Step(s, e);
            if e == Work && StepsToTake(s) == 1 then s'.taken == s.taken + [s.tasks[0]]
            else && Busy(s') && s'.taken == s.taken
                 && StepsToTake(s') == StepsToTake(s) - if e == Work then 1 else 0
  {
  }

  /** ... so a queued task is begun after at most three steps of the worker, whatever the others do. */
  lemma {:induction false} TakenInTime(s: System, es: seq<Event>)
    requires Valid(s) && Busy(s) && Stop !in es
    ensures if Works(es) < StepsToTake(s)
            then Busy(Run(s, es)) && Run(s, es).taken == s.taken
                 && StepsToTake(Run(s, es)) == StepsToTake(s) - Works(es)
            else |Run(s, es).taken| > |s.taken|
  {
    if es != [] {
      var front, e := es[..|es| - 1], es[|es| - 1];
      assert forall x :: x in front ==> x in es;
      assert e in es;
      TakenInTime(s, front);
      RunKeeps(s, front);
      if Works(front) < StepsToTake(s) {
        BusyStep(Run(s, front), e);
      } else {
        TakenGrows(Run(s, front), e);
      }
    }
  }

  /** Whoever is not urgent does not get in before the first in the queue. */
  lemma FirstStays(s: System, e: Event)
    requires Valid(s) && Busy(s) && e != Stop && !(e.AddTask? && e.urgent) && !(e == Work && StepsToTake(s) == 1)
    ensures Busy(Step(s, e)) && Step(s, e).tasks[0] == s.tasks[0]
  {
  }

  lemma {:induction false} FirstWaits(s: System, es: seq<Event>)
    requires Valid(s) && Busy(s) && Stop !in es && Works(es) < StepsToTake(s)
    requires forall e :: e in es ==> !(e.AddTask? && e.urgent)
    ensures Busy(Run(s, es)) && Run(s, es).tasks[0] == s.tasks[0]
  {
    if es != [] {
      var front, e := es[..|es| - 1], es[|es| - 1];
      assert e in es && forall x :: x in front ==> x in es;
      FirstWaits(s, front);
      TakenInTime(s, front);
      RunKeeps(s, front);
      hide Conserved, Ordered, Coherent;
      FirstStays(Run(s, front), e);
    }
  }

  lemma UrgentInFront(s: System, task: Task)
    requires s.state == STARTED
    ensures var s' := AddStep(s, task, true); Busy(s') && s'.tasks[0] == task && s'.taken == s.taken
  {
  }

  /** An urgent task is the next the worker takes, unless another urgent one comes in. */
  lemma UrgentIsNext(s: System, task: Task, es: seq<Event>)
    requires Valid(s) && s.state == STARTED && Stop !in es
    requires forall e :: e in es ==> !(e.AddTask? && e.urgent)
    requires es != [] && es[|es| - 1] == Work && Works(es) == StepsToTake(AddStep(s, task, true))
    ensures Run(AddStep(s, task, true), es).taken == s.taken + [task]
  {
    hide Conserved, Ordered, Coherent, InHand;
    var s1, front := AddStep(s, task, true), es[..|es| - 1];
    StepKeeps(s, AddTask(task, true));
    UrgentInFront(s, task);
    hide AddStep;
    assert forall x :: x in front ==> x in es;
    TakenInTime(s1, front);
    FirstWaits(s1, front);
    RunKeeps(s1, front);
    BusyStep(Run(s1, front), Work);
  }

  lemma TakenGrows(s: System, e: Event)
    ensures |Step(s, e).taken| >= |s.taken|
  {
  }

  // ---------------------------------------------------------------- stopping

  /** A worker that has read STARTED and is about to find an empty queue. */
  predicate InWindow(s: System) {
    s.worker == Locking && s.tasks == []
  }

  /** A worker that will get to the end by its own steps. */
  predicate WillStop(s: System) {
    s.state == STOPPING && s.worker != Blocked && s.worker != NoThread && !InWindow(s)
  }

  /** The worker steps that are left. */
  function StepsToStop(s: System): nat {
    match s.worker
    case NoThread => 0
    case Finishing => 1
    case RunningRest(rest) => 2 + |rest|
    case Draining => 3 + |s.tasks|
    case Testing => 4 + |s.tasks|
    case _ => 5 + |s.tasks|
  }

  /** Once the dispatcher is stopping, only the worker can change anything. */
  lemma OthersIdle(s: System, e: Event)
    requires WillStop(s) && e != Work
    ensures Step(s, e) == s
  {
  }

  lemma WorkTowardsStop(s: System)
    requires WillStop(s)
    ensures var s' := WorkStep(s);
            && s'.accepted == s.accepted && s'.urgency == s.urgency
            && StepsToStop(s') == StepsToStop(s) - 1
            && (WillStop(s') || s'.state == STOPPED)
            && (s'.state == STOPPED <==> StepsToStop(s) == 1)
  {
  }

  function Works(es: seq<Event>): nat {
    if es == [] then 0 else Works(es[..|es| - 1]) + if es[|es| - 1] == Work then 1 else 0
  }

  /** Such a worker stops after exactly that many of its steps, and never sleeps on the way. */
  lemma {:induction false} StopsInTime(s: System, es: seq<Event>)
    requires Valid(s) && WillStop(s)
    ensures Works(es) < StepsToStop(s) ==>
              var s' := Run(s, es); WillStop(s') && StepsToStop(s') == StepsToStop(s) - Works(es)
    ensures Works(es) == StepsToStop(s) && es != [] && es[|es| - 1] == Work ==>
              Run(s, es).state == STOPPED && Run(s, es).tasks == []
    ensures Works(es) < StepsToStop(s) || (Works(es) == StepsToStop(s) && es != [] && es[|es| - 1] == Work) ==>
              Run(s, es).accepted == s.accepted && Run(s, es).urgency == s.urgency
  {
    if es != [] {
      var front, e := es[..|es| - 1], es[|es| - 1];
      StopsInTime(s, front);
      RunKeeps(s, front);
      hide Conserved, Ordered;
      if Works(front) < StepsToStop(s) {
        var s0 := Run(s, front);
        if e == Work {
          WorkTowardsStop(s0);
        } else {
          OthersIdle(s0, e);
        }
      }
    }
  }

  /** Stopping succeeds unless it falls into the window between the unlocked test and the lock. */
  lemma StopSucceedsExactly(s: System)
    requires Valid(s) && s.state == STARTED
    ensures WillStop(StopStep(s)) <==> !InWindow(s)
  {
  }

  /** A task that stops the dispatcher it runs on is never in that window. */
  lemma SelfStopSucceeds(s: System)
    requires Valid(s) && s.state == STARTED && s.worker.Running?
    ensures WillStop(StopStep(s)) && StepsToStop(StopStep(s)) == 5 + |s.tasks|
  {
  }

  /** The worker sleeps, or is about to, although it has been told to stop; nobody will wake it. */
  predicate Stuck(s: System) {
    s.state == STOPPING && s.tasks == [] && s.worker in {Locking, Blocked}
  }

  /** In the window, the signal is lost: short of a spurious wakeup the worker never stops. */
  lemma {:induction false} StopInWindowIsLost(s: System, es: seq<Event>)
    requires s.state == STARTED && InWindow(s) && SpuriousWakeup !in es
    ensures Stuck(Run(StopStep(s), es))
  {
    if es != [] {
      var front := es[..|es| - 1];
      assert forall e :: e in front ==> e in es;
      StopInWindowIsLost(s, front);
      assert es[|es| - 1] in es;
    }
  }

  /** The window is real: starting and stopping an idle dispatcher can end there. */
  lemma WindowIsReachable()
    ensures var s := Run(INITIAL, [Start, Work]); s.state == STARTED && InWindow(s)
    ensures Run(INITIAL, [Start, Work, Stop, Work]).worker == Blocked
  {
    var es := [Start, Work, Stop, Work];
    assert es[..3] == [Start, Work, Stop] && [Start, Work, Stop][..2] == [Start, Work];
    assert [Start, Work][..1] == [Start] && [Start][..0] == [];
    assert Run(INITIAL, []) == INITIAL;
    assert Run(INITIAL, [Start]) == Step(INITIAL, Start);
    assert Run(INITIAL, [Start, Work]) == Step(Run(INITIAL, [Start]), Work);
    assert Run(INITIAL, [Start, Work, Stop]) == Step(Run(INITIAL, [Start, Work]), Stop);
  }

  // ---------------------------------------------------------------- the shutdown branch

  /**
    The game shuts down from a task of its own: it adds one last task and stops the dispatcher.  That
    task is taken after all that was queued before it, and then the worker stops.
   */
  lemma ShutdownRunsLastTask(s: System, last: Task, es: seq<Event>)
    requires Valid(s) && s.state == STARTED && s.worker.Running? && !s.urgency
    requires var s' := StopStep(AddStep(s, last, false)); Works(es) == StepsToStop(s')
    requires es != [] && es[|es| - 1] == Work
    ensures var s' := Run(StopStep(AddStep(s, last, false)), es);
            s'.state == STOPPED && s'.taken == s.taken + s.tasks + [last]
  {
    hide Conserved, Run, StopStep, AddStep, InHand;
    var s1 := AddStep(s, last, false);
    var s2 := StopStep(s1);
    StepKeeps(s, AddTask(last, false));
    StepKeeps(s1, Stop);
    AddStopFacts(s, last);
    StopsInTime(s2, es);
    RunKeeps(s2, es);
    StoppedTookAll(Run(s2, es));
  }

  lemma AddStopFacts(s: System, last: Task)
    requires Valid(s) && s.state == STARTED && s.worker.Running? && !s.urgency
    ensures var s2 := StopStep(AddStep(s, last, false));
            WillStop(s2) && !s2.urgency && s2.accepted == s.taken + s.tasks + [last]
  {
    assert s.taken + [] + s.tasks == s.taken + s.tasks;
  }

  lemma StoppedTookAll(s: System)
    requires Valid(s) && s.state == STOPPED && s.tasks == [] && !s.urgency
    ensures s.taken == s.accepted
  {
    assert s.taken + [] + [] == s.taken;
  }
}
