/** The Spew console adapter, the lock-checked counterpart of LogPipeline: Log takes s_mutex first and
    tests s_hook_active under it, so a stop leaves nothing behind. One adapter instance, as the source
    demands; any number of engine threads. Every flag is read and written under s_mutex here, so a
    critical section without a wait is one step. */
module SpewPipeline {
  import opened Text

  datatype Thread = Logger(i: nat) | Controller | Dispatcher

  datatype LoggerPc =
    | Outside
    | AtQueue(text: Option<string>)   // lock s_mutex
    | TestHook(text: Option<string>)  // test s_hook_active and the text, push
    | EarlyReturn                     // call the original function, if any, while still holding s_mutex; unlock
    | Unlocking                       // unlock s_mutex
    | Notifying                       // s_condition.notify_all
    | Chaining                        // call the original function

  datatype DispatcherPc =
    | NoThread
    | AtLock
    | Testing
    | Asleep
    | Taking
    | Delivering(rest: seq<string>, callback: Option<nat>)
    | InCallback(rest: seq<string>, callback: Option<nat>)
    | Exited

  datatype ControllerPc =
    | Idle
    | Entering(cb: Option<nat>)     // lock s_mutex
    | SetCallback(cb: Option<nat>)  // m_callback = callback, then start or the locked part of stop
    | Unlock                        // leave the scope of the lock
    | StopUnlock                    // lock.unlock
    | StopNotify                    // notify_all
    | StopJoin                      // join

  datatype Sys = Sys(
    queueLock: Option<Thread>,
    hook: bool,
    stop: bool,
    messages: seq<string>,
    callback: Option<nat>,
    loggers: seq<LoggerPc>,
    dispatcher: DispatcherPc,
    controller: ControllerPc)

  ghost predicate Init(s: Sys) {
    && s.queueLock.None? && !s.hook && s.stop && s.messages == [] && s.callback.None?
    && (forall i :: 0 <= i < |s.loggers| ==> s.loggers[i] == Outside)
    && s.dispatcher == NoThread && s.controller == Idle
  }

  datatype Step =
    | LoggerStep(i: nat)
    | DispatcherStep
    | ControllerStep
    | BeginLog(i: nat, text: Option<string>)
    | BeginSetCallback(cb: Option<nat>)
    | SpuriousWakeup

  predicate Internal(a: Step) {
    a.LoggerStep? || a.DispatcherStep? || a.ControllerStep?
  }

  predicate Enabled(s: Sys, a: Step) {
    match a
    case LoggerStep(i) => i < |s.loggers| && LoggerEnabled(s, s.loggers[i])
    case DispatcherStep => DispatcherEnabled(s)
    case ControllerStep => ControllerEnabled(s)
    case BeginLog(i, _) => i < |s.loggers| && s.loggers[i] == Outside
    case BeginSetCallback(_) => s.controller == Idle
    case SpuriousWakeup => s.dispatcher == Asleep
  }

  predicate LoggerEnabled(s: Sys, pc: LoggerPc) {
    !pc.Outside? && (pc.AtQueue? ==> s.queueLock.None?)
  }

  predicate DispatcherEnabled(s: Sys) {
    !s.dispatcher.NoThread? && !s.dispatcher.Exited? && !s.dispatcher.Asleep?
    && (s.dispatcher.AtLock? ==> s.queueLock.None?)
  }

  predicate ControllerEnabled(s: Sys) {
    !s.controller.Idle? && (s.controller.Entering? ==> s.queueLock.None?)
    && (s.controller.StopJoin? ==> s.dispatcher == Exited)
  }

  function Do(s: Sys, a: Step): Sys
    requires Enabled(s, a)
  {
    match a
    case LoggerStep(i) => DoLogger(s, i)
    case DispatcherStep => DoDispatcher(s)
    case ControllerStep => DoController(s)
    case BeginLog(i, text) => s.(loggers := s.loggers[i := AtQueue(text)])
    case BeginSetCallback(cb) => s.(controller := Entering(cb))
    case SpuriousWakeup => s.(dispatcher := AtLock)
  }

  function NotifyAll(s: Sys): Sys {
    if s.dispatcher == Asleep then s.(dispatcher := AtLock) else s
  }

  function DoLogger(s: Sys, i: nat): Sys
    requires i < |s.loggers| && LoggerEnabled(s, s.loggers[i])
  {
    match s.loggers[i]
    case AtQueue(text) => s.(queueLock := Some(Logger(i)), loggers := s.loggers[i := TestHook(text)])
    case TestHook(text) =>
      if !s.hook || text.None? then s.(loggers := s.loggers[i := EarlyReturn])
      else s.(messages := s.messages + [text.value], loggers := s.loggers[i := Unlocking])
    case EarlyReturn => s.(queueLock := None, loggers := s.loggers[i := Outside])
    case Unlocking => s.(queueLock := None, loggers := s.loggers[i := Notifying])
    case Notifying => NotifyAll(s.(loggers := s.loggers[i := Chaining]))
    case Chaining => s.(loggers := s.loggers[i := Outside])
  }

  function DoDispatcher(s: Sys): Sys
    requires DispatcherEnabled(s)
  {
    match s.dispatcher
    case AtLock => s.(queueLock := Some(Dispatcher), dispatcher := Testing)
    case Testing =>
      if s.messages != [] || s.stop then s.(dispatcher := Taking)
      else s.(queueLock := None, dispatcher := Asleep)
    case Taking =>
      if s.stop && s.messages == [] then s.(queueLock := None, dispatcher := Exited)
      else s.(queueLock := None, messages := [], dispatcher := Delivering(s.messages, s.callback))
    case Delivering(rest, cb) =>
      if cb.None? || rest == [] then s.(dispatcher := AtLock)
      else s.(dispatcher := InCallback(rest[1..], cb))
    case InCallback(rest, cb) => s.(dispatcher := Delivering(rest, cb))
  }

  function DoController(s: Sys): Sys
    requires ControllerEnabled(s)
  {
    match s.controller
    case Entering(cb) => s.(queueLock := Some(Controller), controller := SetCallback(cb))
    case SetCallback(cb) =>
      if cb.Some? then
        if !s.stop || s.hook then s.(callback := cb, controller := Unlock)
        else s.(callback := cb, hook := true, stop := false, dispatcher := AtLock, controller := Unlock)
      else
        if s.stop then s.(callback := cb, controller := Unlock)
        else s.(callback := cb, hook := false, messages := [], stop := true, controller := StopUnlock)
    case Unlock => s.(queueLock := None, controller := Idle)
    case StopUnlock => s.(queueLock := None, controller := StopNotify)
    case StopNotify => NotifyAll(s.(controller := StopJoin))
    case StopJoin => s.(dispatcher := NoThread, controller := Idle)
  }

  predicate Possible(s: Sys, run: seq<Step>)
    decreases |run|
  {
    run == [] || (Enabled(s, run[0]) && Possible(Do(s, run[0]), run[1..]))
  }

  function Run(s: Sys, run: seq<Step>): Sys
    requires Possible(s, run)
    decreases |run|
  {
    if run == [] then s else Run(Do(s, run[0]), run[1..])
  }

  ghost predicate Reachable(s: Sys) {
    exists s0, run :: Init(s0) && Possible(s0, run) && Run(s0, run) == s
  }

  // ---------- the invariant ----------

  predicate LoggerHoldsQueue(pc: LoggerPc) {
    pc.TestHook? || pc.EarlyReturn? || pc.Unlocking?
  }

  predicate ControllerHoldsQueue(pc: ControllerPc) {
    pc.SetCallback? || pc.Unlock? || pc.StopUnlock?
  }

  ghost predicate QueueLock(s: Sys) {
    && (forall i :: 0 <= i < |s.loggers| ==> (LoggerHoldsQueue(s.loggers[i]) <==> s.queueLock == Some(Logger(i))))
    && (ControllerHoldsQueue(s.controller) <==> s.queueLock == Some(Controller))
    && (s.dispatcher.Testing? || s.dispatcher.Taking? <==> s.queueLock == Some(Dispatcher))
    && (s.queueLock.Some? && s.queueLock.value.Logger? ==> s.queueLock.value.i < |s.loggers|)
  }

  predicate Lifecycle(s: Sys) {
    && s.hook == !s.stop && s.callback.Some? == !s.stop
    && (s.dispatcher.Delivering? || s.dispatcher.InCallback? ==> s.dispatcher.callback.Some?)
    && (s.dispatcher.Taking? ==> s.messages != [] || s.stop)
    && (!s.stop ==> s.dispatcher != NoThread && s.dispatcher != Exited)
    && (s.controller.StopUnlock? ==> s.stop && s.dispatcher != NoThread && s.dispatcher != Exited)
    && (s.controller.StopNotify? || s.controller.StopJoin? ==> s.stop && s.dispatcher != NoThread)
    && (s.stop && !s.controller.StopUnlock? && !s.controller.StopNotify? && !s.controller.StopJoin? ==>
        s.dispatcher == NoThread)
  }

  predicate NothingQueuedWhileStopped(s: Sys) {
    s.stop ==> s.messages == []
  }

  ghost predicate NotifyPending(s: Sys) {
    || (exists i :: 0 <= i < |s.loggers| && (s.loggers[i].Unlocking? || s.loggers[i].Notifying?))
    || s.controller.StopUnlock? || s.controller.StopNotify?
  }

  ghost predicate NoLostWakeup(s: Sys) {
    s.dispatcher == Asleep && (s.messages != [] || s.stop) ==> NotifyPending(s)
  }

  ghost predicate Inv(s: Sys) {
    QueueLock(s) && Lifecycle(s) && NothingQueuedWhileStopped(s) && NoLostWakeup(s)
  }

  lemma LoggerKeepsQueueLock(s: Sys, i: nat)
    requires i < |s.loggers| && LoggerEnabled(s, s.loggers[i]) && QueueLock(s)
    ensures QueueLock(DoLogger(s, i))
  {
  }

  lemma LoggerKeepsFlow(s: Sys, i: nat)
    requires i < |s.loggers| && LoggerEnabled(s, s.loggers[i])
    requires Lifecycle(s) && NothingQueuedWhileStopped(s) && NoLostWakeup(s)
    ensures Lifecycle(DoLogger(s, i)) && NothingQueuedWhileStopped(DoLogger(s, i)) && NoLostWakeup(DoLogger(s, i))
  {
    var t := DoLogger(s, i);
    assert t.loggers[i].Unlocking? || t.loggers[i].Notifying? ==> NotifyPending(t);
    if j :| 0 <= j < |s.loggers| && j != i && (s.loggers[j].Unlocking? || s.loggers[j].Notifying?) {
      assert t.loggers[j] == s.loggers[j];
    }
  }

  lemma DispatcherKeepsInv(s: Sys)
    requires DispatcherEnabled(s) && Inv(s)
    ensures Inv(DoDispatcher(s))
  {
  }

  lemma ControllerKeepsInv(s: Sys)
    requires ControllerEnabled(s) && Inv(s)
    ensures Inv(DoController(s))
  {
  }

  lemma EnvironmentKeepsInv(s: Sys, a: Step)
    requires !Internal(a) && Enabled(s, a) && Inv(s)
    ensures Inv(Do(s, a))
  {
    if a.BeginLog? && s.dispatcher == Asleep && NotifyPending(s) {
      if j :| 0 <= j < |s.loggers| && (s.loggers[j].Unlocking? || s.loggers[j].Notifying?) {
        assert Do(s, a).loggers[j] == s.loggers[j];
      }
    }
  }

  /** What every step of every thread keeps. */
  lemma StepKeepsInv(s: Sys, a: Step)
    requires Inv(s) && Enabled(s, a)
    ensures Inv(Do(s, a))
  {
    match a
    case LoggerStep(i) =>
      LoggerKeepsQueueLock(s, i);
      LoggerKeepsFlow(s, i);
    case DispatcherStep => DispatcherKeepsInv(s);
    case ControllerStep => ControllerKeepsInv(s);
    case _ => EnvironmentKeepsInv(s, a);
  }

  lemma {:induction false} RunKeepsInv(s: Sys, run: seq<Step>)
    requires Inv(s) && Possible(s, run)
    ensures Inv(Run(s, run))
    decreases |run|
  {
    if run != [] {
      StepKeepsInv(s, run[0]);
      RunKeepsInv(Do(s, run[0]), run[1..]);
    }
  }

  lemma ReachableInv(s: Sys)
    requires Reachable(s)
    ensures Inv(s)
  {
    var s0, run :| Init(s0) && Possible(s0, run) && Run(s0, run) == s;
    RunKeepsInv(s0, run);
  }

  // ---------- results ----------

  /** Main result, the contrast with LogPipeline.OneLateMessageIsPossible: from the locked part of a
      stop until the next start nothing is ever queued, and once the call has returned there is no
      dispatcher either. */
  lemma NoneLeft(s: Sys)
    requires Reachable(s) && s.stop
    ensures s.messages == []
    ensures s.controller == Idle ==> s.dispatcher == NoThread && !s.hook
  {
    ReachableInv(s);
  }

  /** Nobody has anything left to do until new work arrives. */
  ghost predicate Quiescent(s: Sys) {
    && (forall i :: 0 <= i < |s.loggers| ==> s.loggers[i] == Outside)
    && s.controller == Idle
    && (s.dispatcher == NoThread || (s.dispatcher == Asleep && s.messages == [] && !s.stop))
  }

  /** Main result: no reachable state is deadlocked. Callbacks and the original spew function are
      assumed to return. */
  lemma NoDeadlock(s: Sys)
    requires Reachable(s) && !Quiescent(s)
    ensures exists a :: Internal(a) && Enabled(s, a)
  {
    ReachableInv(s);
    if s.queueLock.Some? {
      match s.queueLock.value
      case Logger(i) => assert Enabled(s, LoggerStep(i));
      case Controller => assert Enabled(s, ControllerStep);
      case Dispatcher => assert Enabled(s, DispatcherStep);
    } else if i :| 0 <= i < |s.loggers| && s.loggers[i] != Outside {
      assert Enabled(s, LoggerStep(i));
    } else if ControllerEnabled(s) {
      assert Enabled(s, ControllerStep);
    } else {
      assert Enabled(s, DispatcherStep);
    }
  }

  // ---------- a stop completes, however long engine threads go on logging ----------

  /** From the locked part of a stop to its join. */
  predicate WindingDown(pc: ControllerPc) {
    pc.StopUnlock? || pc.StopNotify? || pc.StopJoin?
  }

  /** A bound on the steps the dispatcher and the controller have still to take. The queue is empty. */
  function StopWork(s: Sys): nat {
    (match s.controller case StopUnlock => 2 case StopNotify => 1 case _ => 0)
    + match s.dispatcher
      case NoThread => 0
      case Exited => 0
      case Taking => 1
      case Testing => 2
      case AtLock => 3
      case Asleep => 4
      case Delivering(rest, _) => 4 + 2 * |rest|
      case InCallback(rest, _) => 5 + 2 * |rest|
  }

  predicate Own(a: Step) {
    a == DispatcherStep || a == ControllerStep
  }

  lemma WindingStep(s: Sys, a: Step)
    requires Inv(s) && Enabled(s, a) && WindingDown(s.controller) && WindingDown(Do(s, a).controller)
    ensures StopWork(Do(s, a)) + (if Own(a) then 1 else 0) <= StopWork(s)
  {
  }

  function OwnSteps(run: seq<Step>): nat {
    if run == [] then 0 else OwnSteps(run[1..]) + if Own(run[0]) then 1 else 0
  }

  predicate WindsDown(s: Sys, run: seq<Step>)
    requires Possible(s, run)
    decreases |run|
  {
    WindingDown(s.controller) && (run == [] || WindsDown(Do(s, run[0]), run[1..]))
  }

  /** Main result: whatever the engine threads do meanwhile, and however many Log calls begin, a stop needs
      only so many steps of the dispatcher and the controller before its join. */
  lemma {:induction false} StopIsBounded(s: Sys, run: seq<Step>)
    requires Inv(s) && Possible(s, run) && WindsDown(s, run)
    ensures OwnSteps(run) <= StopWork(s)
    decreases |run|
  {
    if run != [] {
      StepKeepsInv(s, run[0]);
      StopIsBounded(Do(s, run[0]), run[1..]);
      WindingStep(s, run[0]);
    }
  }

  /** Main result: until then one of the two can move, or the dispatcher waits for s_mutex and its owner can
      move, or the dispatcher is asleep and a logger that can move is about to notify it. */
  lemma StopIsNeverStuck(s: Sys)
    requires Reachable(s) && WindingDown(s.controller)
    ensures || ControllerEnabled(s) || DispatcherEnabled(s)
            || (s.dispatcher == AtLock && exists i ::
                  0 <= i < |s.loggers| && s.queueLock == Some(Logger(i)) && LoggerEnabled(s, s.loggers[i]))
            || (s.dispatcher == Asleep && exists i ::
                  0 <= i < |s.loggers| && (s.loggers[i].Unlocking? || s.loggers[i].Notifying?)
                  && LoggerEnabled(s, s.loggers[i]))
  {
    ReachableInv(s);
    if s.dispatcher == AtLock && s.queueLock.Some? && s.queueLock.value.Logger? {
      assert LoggerEnabled(s, s.loggers[s.queueLock.value.i]);
    }
  }
}
