/** server/rescore_queue.py: one worker thread, any number of submitters and drain callers,
    one condition variable.

    The monitor (the fields guarded by the condition) is `Monitor`; its wait set is explicit and
    ordered, because `notify()` wakes the longest waiter only. `System` adds the threads' program
    counters and a history of accepted submits, starts and ends of recomputes. Every critical
    section is one step, and a step of any thread may come next. */
module RescoreQueue {

  type DeviceId = string

  datatype Thread = Worker | Caller(id: nat)

  datatype Monitor = Monitor(pending: set<DeviceId>, busy: nat, stopping: bool, waiters: seq<Thread>)

  const FreshMonitor := Monitor({}, 0, false, [])

  // ---- critical sections, as functions of the monitor ----

  function AfterSubmit(m: Monitor, d: DeviceId): Monitor {
    if m.stopping then m
    else m.(pending := m.pending + {d}, waiters := if m.waiters == [] then [] else m.waiters[1..])
  }

  function AfterStop(m: Monitor): Monitor {
    m.(stopping := true, waiters := [])
  }

  function AfterWait(m: Monitor, t: Thread): Monitor {
    m.(waiters := m.waiters + [t])
  }

  function AfterTake(m: Monitor, d: DeviceId): Monitor {
    m.(pending := m.pending - {d}, busy := m.busy + 1)
  }

  function AfterFinish(m: Monitor): Monitor
    requires m.busy > 0
  {
    m.(busy := m.busy - 1, waiters := [])
  }

  /** The object of the source. Each method is one `with self._cond` block. */
  class Queue {
    var pending: set<DeviceId>
    var busy: nat
    var stopping: bool
    var waiters: seq<Thread>

    function View(): Monitor
      reads this
    {
      Monitor(pending, busy, stopping, waiters)
    }

    constructor ()
      ensures View() == FreshMonitor
    {
      pending, busy, stopping, waiters := {}, 0, false, [];
    }

    method Submit(d: DeviceId)
      modifies this
      ensures View() == AfterSubmit(old(View()), d)
    {
      if stopping {
        return;
      }
      pending := pending + {d};
      if waiters != [] {
        waiters := waiters[1..];
      }
    }

    method Stop()
      modifies this
      ensures View() == AfterStop(old(View()))
    {
      stopping := true;
      waiters := [];
    }

    /** One pass of `drain`'s loop: None means the caller went to sleep. */
    method DrainPass(id: nat, expired: bool) returns (answer: Answer)
      modifies this
      ensures answer.Drained? <==> old(pending == {} && busy == 0)
      ensures answer.TimedOut? <==> old(pending != {} || busy != 0) && expired
      ensures View() == if answer.Slept? then AfterWait(old(View()), Caller(id)) else old(View())
    {
      if pending == {} && busy == 0 {
        return Drained;
      }
      if expired {
        return TimedOut;
      }
      waiters := waiters + [Caller(id)];
      return Slept;
    }

    /** The worker's first critical section: sleep, exit, or take any pending device. */
    method Take() returns (turn: Turn)
      modifies this
      ensures turn.Sleep? <==> old(pending) == {} && !old(stopping)
      ensures turn.Exit? <==> old(pending) == {} && old(stopping)
      ensures turn.Recompute? ==> turn.device in old(pending)
      ensures View() == match turn
                        case Sleep => AfterWait(old(View()), Worker)
                        case Exit => old(View())
                        case Recompute(d) => AfterTake(old(View()), d)
    {
      if pending == {} && !stopping {
        waiters := waiters + [Worker];
        return Sleep;
      }
      if stopping && pending == {} {
        return Exit;
      }
      var d :| d in pending;
      pending := pending - {d};
      busy := busy + 1;
      return Recompute(d);
    }

    /** The `finally` block; runs whether or not the recompute raised. */
    method Finish()
      requires busy > 0
      modifies this
      ensures View() == AfterFinish(old(View()))
    {
      busy := busy - 1;
      waiters := [];
    }
  }

  datatype Answer = Drained | TimedOut | Slept
  datatype Turn = Sleep | Exit | Recompute(device: DeviceId)

  // ---- all threads together ----

  datatype WorkerPc = NotStarted | Runnable | Asleep | Computing(device: DeviceId) | Exited
  datatype CallerPc = Checking | Sleeping | Returned(drained: bool)
  datatype Event = Submitted(device: DeviceId) | Started(device: DeviceId) | Ended(device: DeviceId)

  datatype System = System(m: Monitor, worker: WorkerPc, callers: map<nat, CallerPc>, log: seq<Event>)
  {
    /** The device being recomputed, if any. */
    function Running(): set<DeviceId> {
      if worker.Computing? then {worker.device} else {}
    }
  }

  datatype Step =
    | StartThread
    | Submit(device: DeviceId)
    | Stop
    | WorkerTakes(turn: Turn)
    | WorkerFinishes(raised: bool)
    | DrainCalled(id: nat)
    | DrainPasses(id: nat, expired: bool)
    | WaitTimesOut(id: nat)

  const Initial := System(FreshMonitor, NotStarted, map[], [])

  /** Move the threads that left the wait set between `before` and `m` back to runnable. */
  function Resume(s: System, m: Monitor): System {
    s.(m := m,
       worker := if s.worker.Asleep? && Worker !in m.waiters then Runnable else s.worker,
       callers := map c | c in s.callers ::
         if s.callers[c].Sleeping? && Caller(c) !in m.waiters then Checking else s.callers[c])
  }

  predicate Enabled(s: System, a: Step) {
    match a
    case StartThread => s.worker.NotStarted?
    case Submit(_) => true
    case Stop => true
    case WorkerTakes(turn) =>
      && s.worker.Runnable?
      && (turn.Sleep? <==> s.m.pending == {} && !s.m.stopping)
      && (turn.Exit? <==> s.m.pending == {} && s.m.stopping)
      && (turn.Recompute? ==> turn.device in s.m.pending)
    case WorkerFinishes(_) => s.worker.Computing? && s.m.busy > 0
    case DrainCalled(id) => id !in s.callers
    case DrainPasses(id, _) => id in s.callers && s.callers[id].Checking?
    case WaitTimesOut(id) => id in s.callers && s.callers[id].Sleeping?
  }

  function Apply(s: System, a: Step): System
    requires Enabled(s, a)
  {
    match a
    case StartThread => s.(worker := Runnable)
    case Submit(d) =>
      Resume(s, AfterSubmit(s.m, d)).(log := if s.m.stopping then s.log else s.log + [Submitted(d)])
    case Stop => Resume(s, AfterStop(s.m))
    case WorkerTakes(Sleep) => s.(m := AfterWait(s.m, Worker), worker := Asleep)
    case WorkerTakes(Exit) => s.(worker := Exited)
    case WorkerTakes(Recompute(d)) =>
      s.(m := AfterTake(s.m, d), worker := Computing(d), log := s.log + [Started(d)])
    case WorkerFinishes(_) =>
      Resume(s.(worker := Runnable), AfterFinish(s.m)).(log := s.log + [Ended(s.worker.device)])
    case DrainCalled(id) => s.(callers := s.callers[id := Checking])
    case DrainPasses(id, expired) =>
      if s.m.pending == {} && s.m.busy == 0 then s.(callers := s.callers[id := Returned(true)])
      else if expired then s.(callers := s.callers[id := Returned(false)])
      else s.(m := AfterWait(s.m, Caller(id)), callers := s.callers[id := Sleeping])
    case WaitTimesOut(id) =>
      // The caller takes the lock back and removes its own entry from the wait set.
      s.(m := s.m.(waiters := Without(s.m.waiters, Caller(id))), callers := s.callers[id := Checking])
  }

  function Without(ts: seq<Thread>, t: Thread): (r: seq<Thread>)
    ensures forall x :: x in r <==> x in ts && x != t
    ensures NoDup(ts) ==> NoDup(r)
  {
    if ts == [] then []
    else if ts[0] == t then Without(ts[1..], t)
    else
      var r := [ts[0]] + Without(ts[1..], t);
      assert NoDup(ts) ==> NoDup(ts[1..]);
      assert NoDup(ts) ==> ts[0] !in ts[1..];
      r
  }

  ghost predicate NoDup<T>(s: seq<T>) {
    forall i, j :: 0 <= i < j < |s| ==> s[i] != s[j]
  }

  // ---- runs ----

  ghost predicate IsRun(s: System, run: seq<Step>)
    decreases |run|
  {
    run == [] || (Enabled(s, run[0]) && IsRun(Apply(s, run[0]), run[1..]))
  }

  function After(s: System, run: seq<Step>): System
    requires IsRun(s, run)
    decreases |run|
  {
    if run == [] then s else After(Apply(s, run[0]), run[1..])
  }

  // ---- the invariant ----

  /** An accepted submit of `d` with no later start of a recompute of `d`. */
  ghost predicate Owed(log: seq<Event>, d: DeviceId) {
    exists i :: 0 <= i < |log| && log[i] == Submitted(d) && Started(d) !in log[i + 1..]
  }

  function Count(log: seq<Event>, e: Event): nat {
    multiset(log)[e]
  }

  ghost predicate WaitSet(s: System) {
    && NoDup(s.m.waiters)
    && (Worker in s.m.waiters <==> s.worker.Asleep?)
    && (forall c :: Caller(c) in s.m.waiters <==> c in s.callers && s.callers[c].Sleeping?)
  }

  ghost predicate NoLostWakeup(s: System) {
    && (forall c :: Caller(c) in s.m.waiters ==> s.m.pending != {} || s.m.busy > 0)
    && (Worker in s.m.waiters ==> s.m.pending == {} && s.m.busy == 0 && !s.m.stopping)
  }

  function One(b: bool): nat {
    if b then 1 else 0
  }

  /** The pending set is exactly the devices that are owed a recompute, a device is started at
      most once per accepted submit, and the running devices are those started and not ended. */
  ghost predicate History(log: seq<Event>, pending: set<DeviceId>, running: set<DeviceId>) {
    && (forall d :: Owed(log, d) <==> d in pending)
    && (forall d :: Count(log, Started(d)) + One(d in pending) <= Count(log, Submitted(d)))
    && (forall d :: Count(log, Started(d)) == Count(log, Ended(d)) + One(d in running))
  }

  ghost predicate Inv(s: System) {
    && WaitSet(s)
    && NoLostWakeup(s)
    && History(s.log, s.m.pending, s.Running())
    && s.m.busy == |s.Running()|
    && (s.worker.Exited? ==> s.m.stopping && s.m.pending == {})
  }

  lemma OwedAfter(log: seq<Event>, e: Event, d: DeviceId)
    ensures Owed(log + [e], d) <==> e == Submitted(d) || (Owed(log, d) && e != Started(d))
  {
    var log' := log + [e];
    if e == Submitted(d) {
      assert log'[|log|] == Submitted(d) && Started(d) !in log'[|log| + 1..];
    }
    if Owed(log, d) && e != Started(d) {
      var i :| 0 <= i < |log| && log[i] == Submitted(d) && Started(d) !in log[i + 1..];
      assert log'[i + 1..] == log[i + 1..] + [e];
      assert log'[i] == Submitted(d) && Started(d) !in log'[i + 1..];
    }
    if Owed(log', d) && e != Submitted(d) {
      var i :| 0 <= i < |log'| && log'[i] == Submitted(d) && Started(d) !in log'[i + 1..];
      assert log'[i + 1..] == log[i + 1..] + [e];
      assert e in log'[i + 1..];
      assert log[i] == Submitted(d) && Started(d) !in log[i + 1..];
    }
  }

  /** What one more event does to the two readings of the history. */
  lemma EventKeepsHistory(log: seq<Event>, pending: set<DeviceId>, running: set<DeviceId>,
                          e: Event, pending': set<DeviceId>, running': set<DeviceId>)
    requires History(log, pending, running)
    requires match e
             case Submitted(d) => pending' == pending + {d} && running' == running
             case Started(d) => d in pending && d !in running && pending' == pending - {d} && running' == running + {d}
             case Ended(d) => d in running && pending' == pending && running' == running - {d}
    ensures History(log + [e], pending', running')
  {
    assert multiset(log + [e]) == multiset(log) + multiset{e};
    forall d
      ensures Owed(log + [e], d) <==> d in pending'
      ensures Count(log + [e], Started(d)) + One(d in pending') <= Count(log + [e], Submitted(d))
      ensures Count(log + [e], Started(d)) == Count(log + [e], Ended(d)) + One(d in running')
    {
      OwedAfter(log, e, d);
      assert Owed(log, d) <==> d in pending;
      assert Count(log, Started(d)) + One(d in pending) <= Count(log, Submitted(d));
      assert Count(log, Started(d)) == Count(log, Ended(d)) + One(d in running);
    }
  }

  lemma StepKeepsHistory(s: System, a: Step)
    requires History(s.log, s.m.pending, s.Running()) && Enabled(s, a)
    ensures var s' := Apply(s, a); History(s'.log, s'.m.pending, s'.Running())
  {
    var s' := Apply(s, a);
    var pending', running' := s'.m.pending, s'.Running();
    match a
    case Submit(d) =>
      if !s.m.stopping {
        EventKeepsHistory(s.log, s.m.pending, s.Running(), Submitted(d), pending', running');
      }
    case WorkerTakes(Recompute(d)) =>
      EventKeepsHistory(s.log, s.m.pending, s.Running(), Started(d), pending', running');
    case WorkerFinishes(_) =>
      EventKeepsHistory(s.log, s.m.pending, s.Running(), Ended(s.worker.device), pending', running');
    case _ => assert s'.log == s.log && pending' == s.m.pending && running' == s.Running();
  }

  lemma ResumeKeepsWaitSet(s: System, m: Monitor)
    requires WaitSet(s)
    requires NoDup(m.waiters) && forall t :: t in m.waiters ==> t in s.m.waiters
    ensures WaitSet(Resume(s, m))
  {}

  lemma StepKeepsWaitSet(s: System, a: Step)
    requires WaitSet(s) && Enabled(s, a)
    ensures WaitSet(Apply(s, a))
  {
    match a
    case Submit(d) =>
      assert s.m.waiters != [] ==> s.m.waiters == [s.m.waiters[0]] + s.m.waiters[1..];
      ResumeKeepsWaitSet(s, AfterSubmit(s.m, d));
    case Stop => ResumeKeepsWaitSet(s, AfterStop(s.m));
    case WorkerFinishes(_) => ResumeKeepsWaitSet(s.(worker := Runnable), AfterFinish(s.m));
    case WorkerTakes(turn) => assert Worker !in s.m.waiters;
    case DrainPasses(id, _) => assert Caller(id) !in s.m.waiters;
    case DrainCalled(id) => assert Caller(id) !in s.m.waiters;
    case _ =>
  }

  lemma StepKeepsWakeups(s: System, a: Step)
    requires WaitSet(s) && NoLostWakeup(s) && s.m.busy == |s.Running()| && Enabled(s, a)
    requires WaitSet(Apply(s, a))
    ensures NoLostWakeup(Apply(s, a))
  {
    match a
    case Submit(d) =>
      if s.worker.Asleep? {
        AsleepWorkerWaitsAlone(s);
      }
    case WorkerTakes(turn) =>
      assert turn.Recompute? ==> Apply(s, a).m.busy > 0;
    case _ =>
  }

  /** Every critical section of every thread keeps the invariant. */
  lemma StepKeepsInv(s: System, a: Step)
    requires Inv(s) && Enabled(s, a)
    ensures Inv(Apply(s, a))
  {
    StepKeepsHistory(s, a);
    StepKeepsWaitSet(s, a);
    StepKeepsWakeups(s, a);
    StepKeepsCounters(s, a);
  }

  lemma StepKeepsCounters(s: System, a: Step)
    requires Enabled(s, a) && s.m.busy == |s.Running()|
    requires s.worker.Exited? ==> s.m.stopping && s.m.pending == {}
    ensures var s' := Apply(s, a);
      s'.m.busy == |s'.Running()| && (s'.worker.Exited? ==> s'.m.stopping && s'.m.pending == {})
  {}

  /** The worker and a drain caller never wait at the same time, so the longest waiter that
      `notify` picks is the worker whenever the worker sleeps. */
  lemma AsleepWorkerWaitsAlone(s: System)
    requires WaitSet(s) && NoLostWakeup(s) && s.worker.Asleep?
    ensures s.m.waiters == [Worker]
  {
    var w := s.m.waiters;
    forall t | t in w ensures t == Worker {
      match t
      case Worker =>
      case Caller(id) => assert false;
    }
    assert |w| > 1 ==> w[0] == Worker == w[1];
  }

  lemma {:induction false} RunKeepsInv(s: System, run: seq<Step>)
    requires Inv(s) && IsRun(s, run)
    ensures Inv(After(s, run))
    decreases |run|
  {
    if run == [] {
    } else {
      StepKeepsInv(s, run[0]);
      RunKeepsInv(Apply(s, run[0]), run[1..]);
    }
  }

  ghost predicate Reachable(s: System) {
    exists run :: IsRun(Initial, run) && After(Initial, run) == s
  }

  lemma ReachableInv(s: System)
    requires Reachable(s)
    ensures Inv(s)
  {
    var run :| IsRun(Initial, run) && After(Initial, run) == s;
    assert Inv(Initial);
    RunKeepsInv(Initial, run);
  }

  // ---- main results ----

  /** No lost wakeup: the single `notify()` of an accepted submit always reaches a sleeping worker. */
  lemma SubmitWakesSleepingWorker(s: System, d: DeviceId)
    requires Reachable(s) && s.worker.Asleep?
    ensures !s.m.stopping
    ensures Apply(s, Submit(d)).worker == Runnable && d in Apply(s, Submit(d)).m.pending
  {
    ReachableInv(s);
    AsleepWorkerWaitsAlone(s);
  }

  /** No lost work: whenever the worker sleeps or has exited, every accepted submit has been followed
      by a start of that device's recompute, and every started recompute has ended. */
  lemma NothingOwedAtRest(s: System)
    requires Reachable(s) && (s.worker.Asleep? || s.worker.Exited?)
    ensures forall d :: !Owed(s.log, d) && Count(s.log, Started(d)) == Count(s.log, Ended(d))
  {
    ReachableInv(s);
    assert s.worker.Asleep? ==> s.m.pending == {};
  }

  /** `drain` answers True exactly at an instant with nothing owed and nothing running. */
  lemma DrainIsExact(s: System, id: nat, expired: bool)
    requires Reachable(s) && Enabled(s, DrainPasses(id, expired))
    ensures Apply(s, DrainPasses(id, expired)).callers[id] == Returned(true)
       <==> forall d :: !Owed(s.log, d) && Count(s.log, Started(d)) == Count(s.log, Ended(d))
  {
    ReachableInv(s);
    if s.worker.Computing? {
      assert s.worker.device in s.Running();
      assert One(s.worker.device in s.Running()) == 1;
    }
    if forall d :: !Owed(s.log, d) {
      assert forall d :: d !in s.m.pending;
    }
  }

  lemma RecomputesNeverExceedSubmits(s: System, d: DeviceId)
    requires Reachable(s)
    ensures Count(s.log, Ended(d)) <= Count(s.log, Started(d)) <= Count(s.log, Submitted(d))
  {
    ReachableInv(s);
    assert Count(s.log, Started(d)) + One(d in s.m.pending) <= Count(s.log, Submitted(d));
    assert Count(s.log, Started(d)) == Count(s.log, Ended(d)) + One(d in s.Running());
  }

  // ---- progress ----

  /** How many more steps the worker can take before it rests, if nobody submits. */
  function Work(s: System): nat {
    3 * |s.m.pending| + match s.worker
                        case Computing(_) => 2
                        case Runnable => 1
                        case _ => 0
  }

  predicate IsWorkerStep(a: Step) {
    a.WorkerTakes? || a.WorkerFinishes?
  }

  function WorkerSteps(run: seq<Step>): nat {
    if run == [] then 0 else (if IsWorkerStep(run[0]) then 1 else 0) + WorkerSteps(run[1..])
  }

  /** What the other threads can add to the worker's work. */
  function Demand(run: seq<Step>): nat {
    if run == [] then 0
    else (match run[0] case Submit(_) => 4 case Stop => 1 case StartThread => 1 case _ => 0) + Demand(run[1..])
  }

  lemma StepSpendsWork(s: System, a: Step)
    requires Enabled(s, a)
    ensures Work(Apply(s, a)) + (if IsWorkerStep(a) then 1 else 0) <= Work(s) + Demand([a])
  {
    match a
    case Submit(d) =>
      if d in s.m.pending {
        assert s.m.pending + {d} == s.m.pending;
      }
    case WorkerTakes(Recompute(d)) => assert |s.m.pending - {d}| == |s.m.pending| - 1;
    case _ =>
  }

  lemma {:induction false} RunSpendsWork(s: System, run: seq<Step>)
    requires IsRun(s, run)
    ensures Work(After(s, run)) + WorkerSteps(run) <= Work(s) + Demand(run)
    decreases |run|
  {
    if run == [] {
    } else {
      StepSpendsWork(s, run[0]);
      RunSpendsWork(Apply(s, run[0]), run[1..]);
      assert Demand(run) == Demand([run[0]]) + Demand(run[1..]);
    }
  }

  lemma {:induction false} RunAppends(s: System, run: seq<Step>, more: seq<Step>)
    requires IsRun(s, run) && IsRun(After(s, run), more)
    ensures IsRun(s, run + more) && After(s, run + more) == After(After(s, run), more)
    decreases |run|
  {
    if run == [] {
      assert run + more == more;
    } else {
      RunAppends(Apply(s, run[0]), run[1..], more);
      assert (run + more)[1..] == run[1..] + more;
    }
  }

  ghost predicate WorkerCanMove(s: System) {
    exists a :: IsWorkerStep(a) && Enabled(s, a)
  }

  /** Every accepted submit is served. In any reachable state the worker can move as long as a
      recompute is owed and the thread was started, and after boundedly many of its steps, however
      they interleave with submits, stops and drains, nothing is owed any more. */
  lemma OwedWorkIsServed(s: System, run: seq<Step>)
    requires Reachable(s) && IsRun(s, run)
    ensures var s' := After(s, run);
      && Reachable(s')
      && (WorkerSteps(run) >= Work(s) + Demand(run) ==> forall d :: !Owed(s'.log, d))
      && ((exists d :: Owed(s'.log, d)) && !s'.worker.NotStarted? ==> WorkerCanMove(s'))
  {
    hide Apply;
    var start :| IsRun(Initial, start) && After(Initial, start) == s;
    RunAppends(Initial, start, run);
    var s' := After(s, run);
    ReachableInv(s');
    RunSpendsWork(s, run);
    assert Work(s') == 0 ==> s'.m.pending == {};
    if d :| Owed(s'.log, d) && !s'.worker.NotStarted? {
      OwedMeansEnabled(s', d);
    }
  }

  lemma OwedMeansEnabled(s: System, d: DeviceId)
    requires Inv(s) && Owed(s.log, d) && !s.worker.NotStarted?
    ensures d in s.m.pending && WorkerCanMove(s)
  {
    assert s.worker.Runnable? ==> Enabled(s, WorkerTakes(Recompute(d)));
    assert s.worker.Computing? ==> Enabled(s, WorkerFinishes(false));
  }
}
