/** The LoggingSystem console adapter as an interleaved step system: any number of engine
    threads log through the immortal proxy, one controller thread calls set_callback, and the
    adapter's own dispatcher thread drains the queue. One adapter is modelled in full; every
    other adapter that shares the proxy is an environment that may retarget it at any time.

    A program counter value stands for the statement a thread is about to execute; the
    comments give what that statement is. */
module LogPipeline {
  import opened Text

  // ---------- threads and shared state ----------

  datatype Thread = Logger(i: nat) | Controller | Dispatcher

  datatype Target = Nobody | ThisAdapter | OtherAdapter(id: nat)

  /** What an engine thread hands to Log: whether the context may be echoed, and the text. */
  datatype Call = Call(echo: bool, text: Option<string>)

  datatype LoggerPc =
    | Outside
    | AtForward(call: Call)     // lock m_forward_mutex
    | ReadTarget(call: Call)    // test m_target
    | InOther                   // inside another adapter's handle_log
    | ReadStop(call: Call)      // read m_thread_stop, without m_mutex
    | ReadAccept(call: Call)    // read m_accept_logs, without m_mutex
    | AtQueue(m: string)        // lock m_mutex
    | Pushing(m: string)        // m_messages.emplace_back
    | Unlocking                 // unlock m_mutex
    | Notifying                 // m_condition.notify_all
    | Leaving                   // unlock m_forward_mutex

  datatype DispatcherPc =
    | NoThread
    | AtLock                                                // lock m_mutex, first time or after a wakeup
    | Testing                                               // evaluate the wait predicate
    | Asleep                                                // inside wait, m_mutex released
    | Taking                                                // break, or swap the batch out
    | Delivering(rest: seq<string>, callback: Option<nat>)  // for each message of the batch
    | InCallback(rest: seq<string>, callback: Option<nat>)  // callback running, rest still to go
    | Exited                                                // returned, still joinable

  datatype ControllerPc =
    | Idle
    | Entering(cb: Option<nat>)     // lock m_mutex
    | SetCallback(cb: Option<nat>)  // m_callback = callback, then start or stop
    | StartAccept                   // m_accept_logs = true
    | StartStop                     // m_thread_stop = false
    | StartThread                   // m_thread = std::thread
    | StopFlag                      // m_thread_stop = true
    | StopAccept                    // m_accept_logs = false
    | StopClear                     // m_messages.clear
    | StopUnlock                    // lock.unlock
    | StopNotify                    // notify_all
    | StopJoin                      // join
    | Unlock(attach: bool)          // leave the scope of the lock
    | AtProxy(attach: bool)         // lock m_forward_mutex in attach or detach
    | Retarget(attach: bool)        // update m_target and unlock

  datatype Sys = Sys(
    forward: Option<Thread>,
    queueLock: Option<Thread>,
    target: Target,
    stop: bool,
    accept: bool,
    messages: seq<string>,
    callback: Option<nat>,
    loggers: seq<LoggerPc>,
    dispatcher: DispatcherPc,
    controller: ControllerPc)

  ghost predicate Init(s: Sys) {
    && s.forward.None? && s.queueLock.None?
    && s.target != ThisAdapter
    && s.stop && !s.accept && s.messages == [] && s.callback.None?
    && (forall i :: 0 <= i < |s.loggers| ==> s.loggers[i] == Outside)
    && s.dispatcher == NoThread && s.controller == Idle
  }

  // ---------- steps ----------

  datatype Step =
    | LoggerStep(i: nat)
    | DispatcherStep
    | ControllerStep
    // External choices: new work, other adapters, spurious wakeups.
    | BeginLog(i: nat, call: Call)
    | BeginSetCallback(cb: Option<nat>)
    | OtherAttach(id: nat)
    | OtherDetach(id: nat)
    | SpuriousWakeup

  predicate Internal(a: Step) {
    a.LoggerStep? || a.DispatcherStep? || a.ControllerStep?
  }

  predicate Enabled(s: Sys, a: Step) {
    match a
    case LoggerStep(i) => i < |s.loggers| && LoggerEnabled(s, s.loggers[i])
    case DispatcherStep => DispatcherEnabled(s)
    case ControllerStep => ControllerEnabled(s)
    case BeginLog(i, _) => i < |s.loggers| && s.loggers[i] == Outside
    case BeginSetCallback(_) => s.controller == Idle
    case OtherAttach(_) => s.forward.None?
    case OtherDetach(_) => s.forward.None?
    case SpuriousWakeup => s.dispatcher == Asleep
  }

  predicate LoggerEnabled(s: Sys, pc: LoggerPc) {
    match pc
    case Outside => false
    case AtForward(_) => s.forward.None?
    case AtQueue(_) => s.queueLock.None?
    case _ => true
  }

  predicate DispatcherEnabled(s: Sys) {
    match s.dispatcher
    case NoThread => false
    case Exited => false
    case Asleep => false
    case AtLock => s.queueLock.None?
    case _ => true
  }

  predicate ControllerEnabled(s: Sys) {
    match s.controller
    case Idle => false
    case Entering(_) => s.queueLock.None?
    case AtProxy(_) => s.forward.None?
    case StopJoin => s.dispatcher == Exited
    case _ => true
  }

  function Do(s: Sys, a: Step): Sys
    requires Enabled(s, a)
  {
    match a
    case LoggerStep(i) => DoLogger(s, i)
    case DispatcherStep => DoDispatcher(s)
    case ControllerStep => DoController(s)
    case BeginLog(i, call) => s.(loggers := s.loggers[i := AtForward(call)])
    case BeginSetCallback(cb) => s.(controller := Entering(cb))
    case OtherAttach(id) => s.(target := OtherAdapter(id))
    case OtherDetach(id) => if s.target == OtherAdapter(id) then s.(target := Nobody) else s
    case SpuriousWakeup => s.(dispatcher := AtLock)
  }

  function NotifyAll(s: Sys): Sys {
    if s.dispatcher == Asleep then s.(dispatcher := AtLock) else s
  }

  function DoLogger(s: Sys, i: nat): Sys
    requires i < |s.loggers| && LoggerEnabled(s, s.loggers[i])
  {
    match s.loggers[i]
    case AtForward(c) => s.(forward := Some(Logger(i)), loggers := s.loggers[i := ReadTarget(c)])
    case ReadTarget(c) =>
      var next := match s.target
        case Nobody => Leaving
        case OtherAdapter(_) => InOther
        case ThisAdapter => if c.echo then ReadStop(c) else Leaving;
      s.(loggers := s.loggers[i := next])
    case InOther => s.(loggers := s.loggers[i := Leaving])
    case ReadStop(c) => s.(loggers := s.loggers[i := if s.stop then Leaving else ReadAccept(c)])
    case ReadAccept(c) =>
      s.(loggers := s.loggers[i := if !s.accept || c.text.None? then Leaving else AtQueue(c.text.value)])
    case AtQueue(m) => s.(queueLock := Some(Logger(i)), loggers := s.loggers[i := Pushing(m)])
    case Pushing(m) =>
      s.(messages := s.messages + [m], loggers := s.loggers[i := Unlocking])
    case Unlocking => s.(queueLock := None, loggers := s.loggers[i := Notifying])
    case Notifying => NotifyAll(s.(loggers := s.loggers[i := Leaving]))
    case Leaving => s.(forward := None, loggers := s.loggers[i := Outside])
  }

  function DoDispatcher(s: Sys): Sys
    requires DispatcherEnabled(s)
  {
    match s.dispatcher
    case AtLock => s.(queueLock := Some(Dispatcher), dispatcher := Testing)
    case Testing =>
      if s.messages != [] || s.stop then s.(dispatcher := Taking)
      else s.(queueLock := None, dispatcher := Asleep)
    case Taking =>
      if s.stop && s.messages == [] then s.(queueLock := None, dispatcher := Exited)
      else s.(queueLock := None, messages := [], dispatcher := Delivering(s.messages, s.callback))
    case Delivering(rest, cb) =>
      if cb.None? || rest == [] then s.(dispatcher := AtLock)
      else s.(dispatcher := InCallback(rest[1..], cb))
    case InCallback(rest, cb) =>
      // The callback returned or threw; either way the loop goes on.
      s.(dispatcher := Delivering(rest, cb))
  }

  function DoController(s: Sys): Sys
    requires ControllerEnabled(s)
  {
    match s.controller
    case Entering(cb) => s.(queueLock := Some(Controller), controller := SetCallback(cb))
    case SetCallback(cb) =>
      s.(callback := cb,
         controller := if cb.Some? then (if s.stop then StartAccept else Unlock(true))
                       else (if s.stop then Unlock(false) else StopFlag))
    case StartAccept => s.(accept := true, controller := StartStop)
    case StartStop => s.(stop := false, controller := StartThread)
    case StartThread => s.(dispatcher := AtLock, controller := Unlock(true))
    case StopFlag => s.(stop := true, controller := StopAccept)
    case StopAccept => s.(accept := false, controller := StopClear)
    case StopClear => s.(messages := [], controller := StopUnlock)
    case StopUnlock => s.(queueLock := None, controller := StopNotify)
    case StopNotify => NotifyAll(s.(controller := StopJoin))
    case StopJoin => s.(dispatcher := NoThread, controller := AtProxy(false))
    case Unlock(attach) => s.(queueLock := None, controller := AtProxy(attach))
    case AtProxy(attach) => s.(forward := Some(Controller), controller := Retarget(attach))
    case Retarget(attach) =>
      s.(forward := None, controller := Idle,
         target := if attach then ThisAdapter else if s.target == ThisAdapter then Nobody else s.target)
  }

  // ---------- runs ----------

  /** The states s, Do(s, run[0]), ... are well defined. */
  predicate Possible(s: Sys, run: seq<Step>)
    decreases |run|
  {
    run == [] || (Enabled(s, run[0]) && Possible(Do(s, run[0]), run[1..]))
  }

  function Run(s: Sys, run: seq<Step>): Sys
    requires Possible(s, run)
    decreases |run|
  {
    if run == [] then s else Run(Do(s, run[0]), run[1..])
  }

  ghost predicate Reachable(s: Sys) {
    exists s0, run :: Init(s0) && Possible(s0, run) && Run(s0, run) == s
  }

  // ---------- the invariant ----------

  predicate HoldsForward(pc: LoggerPc) {
    !pc.Outside? && !pc.AtForward?
  }

  predicate HoldsQueue(pc: LoggerPc) {
    pc.Pushing? || pc.Unlocking?
  }

  /** Inside this adapter's handle_log. */
  predicate Inside(pc: LoggerPc) {
    pc.ReadStop? || pc.ReadAccept? || pc.AtQueue? || pc.Pushing? || pc.Unlocking? || pc.Notifying?
  }

  /** Past the unlocked test of m_thread_stop but not yet pushed. */
  predicate Late(pc: LoggerPc) {
    pc.ReadAccept? || pc.AtQueue? || pc.Pushing?
  }

  predicate ControllerHoldsQueue(pc: ControllerPc) {
    pc.SetCallback? || pc.StartAccept? || pc.StartStop? || pc.StartThread? || pc.StopFlag?
    || pc.StopAccept? || pc.StopClear? || pc.StopUnlock? || pc.Unlock?
  }

  predicate Live(pc: DispatcherPc) {
    !pc.NoThread? && !pc.Exited?
  }

  /** m_forward_mutex has at most one owner: exactly the thread inside the matching region. */
  ghost predicate ForwardLock(s: Sys) {
    && (forall i :: 0 <= i < |s.loggers| ==> (HoldsForward(s.loggers[i]) <==> s.forward == Some(Logger(i))))
    && (s.controller.Retarget? <==> s.forward == Some(Controller))
    && s.forward != Some(Dispatcher)
    && (s.forward.Some? && s.forward.value.Logger? ==> s.forward.value.i < |s.loggers|)
  }

  /** The same for m_mutex. */
  ghost predicate QueueLock(s: Sys) {
    && (forall i :: 0 <= i < |s.loggers| ==> (HoldsQueue(s.loggers[i]) <==> s.queueLock == Some(Logger(i))))
    && (ControllerHoldsQueue(s.controller) <==> s.queueLock == Some(Controller))
    && (s.dispatcher.Testing? || s.dispatcher.Taking? <==> s.queueLock == Some(Dispatcher))
    && (s.queueLock.Some? && s.queueLock.value.Logger? ==> s.queueLock.value.i < |s.loggers|)
  }

  ghost predicate InsideIsTargeted(s: Sys) {
    forall i :: 0 <= i < |s.loggers| && Inside(s.loggers[i]) ==> s.target == ThisAdapter
  }

  /** Running: started and not yet told to stop. Stopped: fully wound down, except possibly for m_target. */
  predicate Running(s: Sys) {
    !s.stop && s.accept && s.callback.Some? && Live(s.dispatcher)
  }

  predicate Stopped(s: Sys) {
    s.stop && !s.accept && s.callback.None? && s.dispatcher == NoThread
  }

  predicate Lifecycle(s: Sys) {
    match s.controller
    case Idle => Running(s) || (Stopped(s) && s.target != ThisAdapter)
    case Entering(_) => Running(s) || (Stopped(s) && s.target != ThisAdapter)
    case SetCallback(_) => Running(s) || (Stopped(s) && s.target != ThisAdapter)
    case StartAccept => s.callback.Some? && s.stop && s.dispatcher == NoThread && s.target != ThisAdapter
    case StartStop => s.callback.Some? && s.stop && s.accept && s.dispatcher == NoThread && s.target != ThisAdapter
    case StartThread => s.callback.Some? && !s.stop && s.accept && s.dispatcher == NoThread && s.target != ThisAdapter
    case StopFlag => s.callback.None? && !s.stop && s.accept && Live(s.dispatcher)
    case StopAccept => s.callback.None? && s.stop && s.accept && Live(s.dispatcher)
    case StopClear => s.callback.None? && s.stop && !s.accept && Live(s.dispatcher)
    case StopUnlock => s.callback.None? && s.stop && !s.accept && Live(s.dispatcher)
    case StopNotify => s.callback.None? && s.stop && !s.accept && s.dispatcher != NoThread
    case StopJoin => s.callback.None? && s.stop && !s.accept && s.dispatcher != NoThread
    case Unlock(attach) => if attach then Running(s) else Stopped(s) && s.target != ThisAdapter
    case AtProxy(attach) => if attach then Running(s) else Stopped(s)
    case Retarget(attach) => if attach then Running(s) else Stopped(s)
  }

  /** Between m_messages.clear and the next start. */
  predicate Cleared(s: Sys) {
    s.stop && !s.controller.StopAccept? && !s.controller.StopClear?
  }

  /** One late message at most, counting the one a logger may still be about to push. */
  ghost predicate AtMostOneLate(s: Sys) {
    Cleared(s) ==>
      && |s.messages| <= 1
      && (s.messages != [] ==> forall i :: 0 <= i < |s.loggers| ==> !Late(s.loggers[i]))
  }

  /** Somebody is committed to calling notify_all. */
  predicate NotifyPending(s: Sys) {
    || (s.forward.Some? && s.forward.value.Logger? && s.forward.value.i < |s.loggers|
        && (s.loggers[s.forward.value.i].Unlocking? || s.loggers[s.forward.value.i].Notifying?))
    || s.controller.StopAccept? || s.controller.StopClear? || s.controller.StopUnlock? || s.controller.StopNotify?
  }

  predicate NoLostWakeup(s: Sys) {
    s.dispatcher == Asleep && (s.messages != [] || s.stop) ==> NotifyPending(s)
  }

  /** The dispatcher only leaves wait for a reason, and while running its copy of the callback is never empty. */
  predicate DispatcherHasWork(s: Sys) {
    && (s.dispatcher.Taking? ==> s.messages != [] || s.stop)
    && (!s.stop && (s.dispatcher.Delivering? || s.dispatcher.InCallback?) ==> s.dispatcher.callback.Some?)
  }

  ghost predicate Inv(s: Sys) {
    && ForwardLock(s)
    && QueueLock(s)
    && InsideIsTargeted(s)
    && Lifecycle(s)
    && AtMostOneLate(s)
    && NoLostWakeup(s)
    && DispatcherHasWork(s)
  }

  // ---------- every step keeps it ----------

  lemma LoggerKeepsForwardLock(s: Sys, i: nat)
    requires i < |s.loggers| && LoggerEnabled(s, s.loggers[i])
    requires ForwardLock(s)
    ensures ForwardLock(DoLogger(s, i))
  {
  }

  lemma LoggerKeepsQueueLock(s: Sys, i: nat)
    requires i < |s.loggers| && LoggerEnabled(s, s.loggers[i])
    requires QueueLock(s)
    ensures QueueLock(DoLogger(s, i))
  {
    LoggerKeepsQueueOwner(s, i);
  }

  lemma LoggerKeepsQueueOwner(s: Sys, i: nat)
    requires i < |s.loggers| && LoggerEnabled(s, s.loggers[i])
    requires QueueLock(s)
    ensures var t := DoLogger(s, i);
            forall j :: 0 <= j < |t.loggers| ==> (HoldsQueue(t.loggers[j]) <==> t.queueLock == Some(Logger(j)))
  {
  }

  lemma LoggerKeepsTarget(s: Sys, i: nat)
    requires i < |s.loggers| && LoggerEnabled(s, s.loggers[i])
    requires InsideIsTargeted(s)
    ensures InsideIsTargeted(DoLogger(s, i))
  {
  }

  lemma LoggerKeepsLifecycle(s: Sys, i: nat)
    requires i < |s.loggers| && LoggerEnabled(s, s.loggers[i])
    requires Lifecycle(s) && DispatcherHasWork(s)
    ensures Lifecycle(DoLogger(s, i)) && DispatcherHasWork(DoLogger(s, i))
  {
  }

  lemma LoggerKeepsAtMostOneLate(s: Sys, i: nat)
    requires i < |s.loggers| && LoggerEnabled(s, s.loggers[i])
    requires ForwardLock(s) && AtMostOneLate(s)
    ensures AtMostOneLate(DoLogger(s, i))
  {
  }

  lemma LoggerKeepsNoLostWakeup(s: Sys, i: nat)
    requires i < |s.loggers| && LoggerEnabled(s, s.loggers[i])
    requires ForwardLock(s) && NoLostWakeup(s)
    ensures NoLostWakeup(DoLogger(s, i))
  {
  }

  lemma DispatcherKeepsForwardLock(s: Sys)
    requires DispatcherEnabled(s) && ForwardLock(s)
    ensures ForwardLock(DoDispatcher(s))
  {
  }

  lemma DispatcherKeepsQueueLock(s: Sys)
    requires DispatcherEnabled(s) && QueueLock(s)
    ensures QueueLock(DoDispatcher(s))
  {
  }

  lemma DispatcherKeepsLifecycle(s: Sys)
    requires DispatcherEnabled(s)
    requires QueueLock(s) && Lifecycle(s) && DispatcherHasWork(s)
    ensures Lifecycle(DoDispatcher(s)) && DispatcherHasWork(DoDispatcher(s))
  {
  }

  lemma DispatcherKeepsRest(s: Sys)
    requires DispatcherEnabled(s)
    requires InsideIsTargeted(s) && AtMostOneLate(s) && NoLostWakeup(s)
    ensures InsideIsTargeted(DoDispatcher(s)) && AtMostOneLate(DoDispatcher(s)) && NoLostWakeup(DoDispatcher(s))
  {
  }

  lemma ControllerKeepsForwardLock(s: Sys)
    requires ControllerEnabled(s)
    requires ForwardLock(s)
    ensures ForwardLock(DoController(s))
  {
  }

  lemma ControllerKeepsQueueLock(s: Sys)
    requires ControllerEnabled(s)
    requires QueueLock(s) && Lifecycle(s)
    ensures QueueLock(DoController(s))
  {
  }

  lemma ControllerKeepsTarget(s: Sys)
    requires ControllerEnabled(s)
    requires ForwardLock(s) && InsideIsTargeted(s)
    ensures InsideIsTargeted(DoController(s))
  {
  }

  lemma ControllerKeepsLifecycle(s: Sys)
    requires ControllerEnabled(s)
    requires Lifecycle(s)
    ensures Lifecycle(DoController(s))
  {
  }

  lemma ControllerKeepsAtMostOneLate(s: Sys)
    requires ControllerEnabled(s)
    requires QueueLock(s) && InsideIsTargeted(s) && Lifecycle(s) && AtMostOneLate(s)
    ensures AtMostOneLate(DoController(s))
  {
  }

  lemma ControllerKeepsNoLostWakeup(s: Sys)
    requires ControllerEnabled(s)
    requires ForwardLock(s) && QueueLock(s) && Lifecycle(s) && NoLostWakeup(s) && DispatcherHasWork(s)
    ensures NoLostWakeup(DoController(s)) && DispatcherHasWork(DoController(s))
  {
  }

  lemma EnvironmentKeepsLocks(s: Sys, a: Step)
    requires !Internal(a) && Enabled(s, a)
    requires ForwardLock(s) && QueueLock(s)
    ensures ForwardLock(Do(s, a)) && QueueLock(Do(s, a))
  {
  }

  lemma EnvironmentKeepsRest(s: Sys, a: Step)
    requires !Internal(a) && Enabled(s, a) && Inv(s)
    ensures InsideIsTargeted(Do(s, a)) && Lifecycle(Do(s, a)) && AtMostOneLate(Do(s, a))
    ensures NoLostWakeup(Do(s, a)) && DispatcherHasWork(Do(s, a))
  {
  }

  /** What every step of every thread keeps. */
  lemma StepKeepsInv(s: Sys, a: Step)
    requires Inv(s) && Enabled(s, a)
    ensures Inv(Do(s, a))
  {
    match a
    case LoggerStep(i) =>
      LoggerKeepsForwardLock(s, i);
      LoggerKeepsQueueLock(s, i);
      LoggerKeepsTarget(s, i);
      LoggerKeepsLifecycle(s, i);
      LoggerKeepsAtMostOneLate(s, i);
      LoggerKeepsNoLostWakeup(s, i);
    case DispatcherStep =>
      DispatcherKeepsForwardLock(s);
      DispatcherKeepsQueueLock(s);
      DispatcherKeepsLifecycle(s);
      DispatcherKeepsRest(s);
    case ControllerStep =>
      ControllerKeepsForwardLock(s);
      ControllerKeepsQueueLock(s);
      ControllerKeepsTarget(s);
      ControllerKeepsLifecycle(s);
      ControllerKeepsAtMostOneLate(s);
      ControllerKeepsNoLostWakeup(s);
    case _ =>
      EnvironmentKeepsLocks(s, a);
      EnvironmentKeepsRest(s, a);
  }

  lemma {:induction false} RunKeepsInv(s: Sys, run: seq<Step>)
    requires Inv(s) && Possible(s, run)
    ensures Inv(Run(s, run))
    decreases |run|
  {
    if run != [] {
      StepKeepsInv(s, run[0]);
      RunKeepsInv(Do(s, run[0]), run[1..]);
    }
  }

  lemma ReachableInv(s: Sys)
    requires Reachable(s)
    ensures Inv(s)
  {
    var s0, run :| Init(s0) && Possible(s0, run) && Run(s0, run) == s;
    RunKeepsInv(s0, run);
  }

  // ---------- nothing is lost, duplicated or reordered ----------

  /** The part of the dispatcher's batch that has still to reach a callback. */
  function Batch(d: DispatcherPc): seq<string> {
    if (d.Delivering? || d.InCallback?) && d.callback.Some? then d.rest else []
  }

  /** What a single step pushes onto m_messages. */
  function Pushed(s: Sys, a: Step): seq<string> {
    if a.LoggerStep? && a.i < |s.loggers| && s.loggers[a.i].Pushing? then [s.loggers[a.i].m] else []
  }

  /** What a single step passes to the callback. */
  function Delivered(s: Sys, a: Step): seq<string> {
    if a == DispatcherStep && s.dispatcher.Delivering? && s.dispatcher.callback.Some? && s.dispatcher.rest != []
    then [s.dispatcher.rest[0]] else []
  }

  function AllPushed(s: Sys, run: seq<Step>): seq<string>
    requires Possible(s, run)
    decreases |run|
  {
    if run == [] then [] else Pushed(s, run[0]) + AllPushed(Do(s, run[0]), run[1..])
  }

  function AllDelivered(s: Sys, run: seq<Step>): seq<string>
    requires Possible(s, run)
    decreases |run|
  {
    if run == [] then [] else Delivered(s, run[0]) + AllDelivered(Do(s, run[0]), run[1..])
  }

  /** The run contains no statement m_thread_stop = false, that is, no new start. */
  predicate NoStart(s: Sys, run: seq<Step>)
    requires Possible(s, run)
    decreases |run|
  {
    run == [] ||
    (!(run[0] == ControllerStep && s.controller.StartStop?) && NoStart(Do(s, run[0]), run[1..]))
  }

  /** What one step does to the pending messages: pushed at the end, delivered from the front. */
  ghost predicate Conserves(s: Sys, t: Sys, pushed: seq<string>, delivered: seq<string>) {
    if s.stop then
      t.stop && delivered + Batch(t.dispatcher) == Batch(s.dispatcher)
    else if t.stop then
      delivered + Batch(t.dispatcher) == Batch(s.dispatcher)
    else
      delivered + Batch(t.dispatcher) + t.messages == Batch(s.dispatcher) + s.messages + pushed
  }

  lemma Associative(a: seq<string>, b: seq<string>, c: seq<string>)
    ensures a + b + c == a + (b + c)
  {
  }

  lemma LoggerOnlyPushes(s: Sys, i: nat)
    requires i < |s.loggers| && LoggerEnabled(s, s.loggers[i])
    ensures var t := DoLogger(s, i);
            t.stop == s.stop && Batch(t.dispatcher) == Batch(s.dispatcher)
            && t.messages == s.messages + Pushed(s, LoggerStep(i))
  {
  }

  lemma LoggerConserves(s: Sys, i: nat)
    requires i < |s.loggers| && LoggerEnabled(s, s.loggers[i])
    ensures Conserves(s, DoLogger(s, i), Pushed(s, LoggerStep(i)), [])
  {
    var b := Batch(s.dispatcher);
    LoggerOnlyPushes(s, i);
    Associative(b, s.messages, Pushed(s, LoggerStep(i)));
    assert [] + b == b;
  }

  lemma DispatcherConserves(s: Sys)
    requires Inv(s) && DispatcherEnabled(s)
    ensures Conserves(s, DoDispatcher(s), [], Delivered(s, DispatcherStep))
  {
    if s.dispatcher.Delivering? && s.dispatcher.rest != [] {
      assert s.dispatcher.rest == [s.dispatcher.rest[0]] + s.dispatcher.rest[1..];
    }
    assert Batch(s.dispatcher) + s.messages + [] == Batch(s.dispatcher) + s.messages;
  }

  lemma ControllerConserves(s: Sys)
    requires Inv(s) && ControllerEnabled(s) && !s.controller.StartStop?
    ensures Conserves(s, DoController(s), [], [])
  {
    assert Batch(s.dispatcher) + s.messages + [] == Batch(s.dispatcher) + s.messages;
  }

  lemma EnvironmentConserves(s: Sys, a: Step)
    requires Enabled(s, a) && !Internal(a)
    ensures Conserves(s, Do(s, a), [], [])
  {
    assert Batch(s.dispatcher) + s.messages + [] == Batch(s.dispatcher) + s.messages;
  }

  lemma StepConserves(s: Sys, a: Step)
    requires Inv(s) && Enabled(s, a)
    requires !(a == ControllerStep && s.controller.StartStop?)
    ensures Conserves(s, Do(s, a), Pushed(s, a), Delivered(s, a))
  {
    match a
    case LoggerStep(i) => LoggerConserves(s, i);
    case DispatcherStep => DispatcherConserves(s);
    case ControllerStep => ControllerConserves(s);
    case _ => EnvironmentConserves(s, a);
  }

  lemma {:induction false} DrainedInOrder(s: Sys, run: seq<Step>)
    requires Inv(s) && s.stop && Possible(s, run) && NoStart(s, run)
    ensures AllDelivered(s, run) + Batch(Run(s, run).dispatcher) == Batch(s.dispatcher)
    ensures Run(s, run).stop
    decreases |run|
  {
    if run != [] {
      var t := Do(s, run[0]);
      StepConserves(s, run[0]);
      StepKeepsInv(s, run[0]);
      DrainedInOrder(t, run[1..]);
      Associative(Delivered(s, run[0]), AllDelivered(t, run[1..]), Batch(Run(s, run).dispatcher));
    }
  }

  /** The dispatcher exits only when told to stop, and leaves nothing in the queue. */
  lemma ExitsDrained(s: Sys, a: Step)
    requires Inv(s) && Enabled(s, a) && s.dispatcher != Exited && Do(s, a).dispatcher == Exited
    ensures s.stop && s.messages == [] && Do(s, a).messages == []
  {
  }

  /** Main result. Take any run from a running state up to any later moment before the next start.
      While the adapter is still running, the messages passed to the callback, then the rest of
      the batch, then m_messages are exactly what was pending at the beginning followed by
      everything pushed since. Once it has been told to stop, what was and will be delivered is an
      initial part of that same sequence. */
  lemma {:induction false} NothingLostDuplicatedOrReordered(s: Sys, run: seq<Step>)
    requires Reachable(s) && !s.stop && Possible(s, run) && NoStart(s, run)
    ensures !Run(s, run).stop ==>
              AllDelivered(s, run) + Batch(Run(s, run).dispatcher) + Run(s, run).messages
              == Batch(s.dispatcher) + s.messages + AllPushed(s, run)
    ensures AllDelivered(s, run) + Batch(Run(s, run).dispatcher)
            <= Batch(s.dispatcher) + s.messages + AllPushed(s, run)
  {
    ReachableInv(s);
    ConservedFrom(s, run);
  }

  lemma {:induction false} ConservedFrom(s: Sys, run: seq<Step>)
    requires Inv(s) && !s.stop && Possible(s, run) && NoStart(s, run)
    ensures !Run(s, run).stop ==>
              AllDelivered(s, run) + Batch(Run(s, run).dispatcher) + Run(s, run).messages
              == Batch(s.dispatcher) + s.messages + AllPushed(s, run)
    ensures AllDelivered(s, run) + Batch(Run(s, run).dispatcher)
            <= Batch(s.dispatcher) + s.messages + AllPushed(s, run)
    decreases |run|
  {
    if run != [] {
      var t, end := Do(s, run[0]), Run(s, run);
      var rest := run[1..];
      StepConserves(s, run[0]);
      StepKeepsInv(s, run[0]);
      if t.stop {
        DrainedInOrder(t, rest);
        GluePrefix(Delivered(s, run[0]), AllDelivered(t, rest), Batch(end.dispatcher), Batch(t.dispatcher),
                   Batch(s.dispatcher), s.messages, Pushed(s, run[0]) + AllPushed(t, rest));
      } else {
        ConservedFrom(t, rest);
        Associative(Delivered(s, run[0]), Batch(t.dispatcher), t.messages);
        Glue(Delivered(s, run[0]), AllDelivered(t, rest), Batch(end.dispatcher), end.messages,
             Batch(t.dispatcher) + t.messages, AllPushed(t, rest),
             Batch(s.dispatcher) + s.messages, Pushed(s, run[0]));
      }
    }
  }

  /** Delivered d, then ds, with b and m still pending at the end; x pending after the first step. */
  lemma Glue(d: seq<string>, ds: seq<string>, b: seq<string>, m: seq<string>,
             x: seq<string>, ps: seq<string>, y: seq<string>, p: seq<string>)
    requires d + x == y + p
    requires ds + b <= x + ps
    ensures (d + ds) + b <= y + (p + ps)
    ensures ds + b + m == x + ps ==> (d + ds) + b + m == y + (p + ps)
  {
    assert y + (p + ps) == (d + x) + ps == d + (x + ps);
    assert (d + ds) + b == d + (ds + b);
    assert (d + ds) + b + m == d + (ds + b + m);
  }

  lemma GluePrefix(d: seq<string>, ds: seq<string>, b: seq<string>, x: seq<string>,
                   y: seq<string>, m: seq<string>, ps: seq<string>)
    requires d + x == y && ds + b == x
    ensures (d + ds) + b <= y + m + ps
  {
    assert (d + ds) + b == d + (ds + b);
  }

  // ---------- after set_callback(nullptr) has returned ----------

  /** Main result: once set_callback(nullptr) has returned, no dispatcher thread exists, the proxy does
      not point here, no logger is inside, and at most one late message is left. */
  lemma StoppedForGood(s: Sys)
    requires Reachable(s) && s.stop && s.controller == Idle
    ensures s.dispatcher == NoThread && s.target != ThisAdapter
    ensures forall i :: 0 <= i < |s.loggers| ==> !Inside(s.loggers[i])
    ensures |s.messages| <= 1
  {
    ReachableInv(s);
  }

  predicate StopsOnly(run: seq<Step>) {
    forall a :: a in run && a.BeginSetCallback? ==> a.cb.None?
  }

  /** Stopped, and with at most a redundant set_callback(nullptr) in progress. */
  predicate Quiet(s: Sys) {
    && Stopped(s) && s.target != ThisAdapter
    && (s.controller == Idle || s.controller == Entering(None) || s.controller == SetCallback(None)
        || s.controller == Unlock(false) || s.controller == AtProxy(false) || s.controller == Retarget(false))
  }

  lemma StepKeepsQuiet(s: Sys, a: Step)
    requires Inv(s) && Quiet(s) && Enabled(s, a) && StopsOnly([a])
    ensures Quiet(Do(s, a)) && Do(s, a).messages == s.messages && Delivered(s, a) == []
  {
    assert a in [a];
  }

  lemma {:induction false} RunKeepsQuiet(s: Sys, run: seq<Step>)
    requires Inv(s) && Quiet(s) && Possible(s, run) && StopsOnly(run)
    ensures Inv(Run(s, run)) && Quiet(Run(s, run))
    ensures Run(s, run).messages == s.messages && AllDelivered(s, run) == []
    decreases |run|
  {
    if run != [] {
      StepKeepsQuiet(s, run[0]);
      StepKeepsInv(s, run[0]);
      RunKeepsQuiet(Do(s, run[0]), run[1..]);
    }
  }

  /** Main result: from then on, in every run without a new set_callback(callback), the callback is
      never invoked, no logger enters, and a leftover message stays exactly as it is. Every prefix
      of a run is a run, so this covers every intermediate state. */
  lemma QuietUntilNextStart(s: Sys, run: seq<Step>)
    requires Reachable(s) && s.stop && s.controller == Idle && Possible(s, run) && StopsOnly(run)
    ensures Quiet(Run(s, run)) && Run(s, run).messages == s.messages && AllDelivered(s, run) == []
    ensures forall i :: 0 <= i < |Run(s, run).loggers| ==> !Inside(Run(s, run).loggers[i])
  {
    ReachableInv(s);
    RunKeepsQuiet(s, run);
  }

  /** Inside a call set_callback(nullptr). */
  predicate ControllerStopping(pc: ControllerPc) {
    || pc == Entering(None) || pc == SetCallback(None) || pc == Unlock(false)
    || pc == AtProxy(false) || pc == Retarget(false)
    || pc.StopFlag? || pc.StopAccept? || pc.StopClear? || pc.StopUnlock? || pc.StopNotify? || pc.StopJoin?
  }

  lemma StoppingSpares(s: Sys, a: Step, id: nat)
    requires Inv(s) && s.target == OtherAdapter(id) && Enabled(s, a) && !a.OtherAttach? && !a.OtherDetach?
    requires (s.controller == Idle || ControllerStopping(s.controller)) && (a.BeginSetCallback? ==> a.cb.None?)
    ensures var t := Do(s, a);
            t.target == OtherAdapter(id) && (t.controller == Idle || ControllerStopping(t.controller))
  {
  }

  /** Nothing this adapter does while winding down unhooks an adapter attached after it. */
  lemma {:induction false} DetachSparesNewerAdapter(s: Sys, run: seq<Step>, id: nat)
    requires Inv(s) && s.target == OtherAdapter(id) && Possible(s, run) && StopsOnly(run)
    requires s.controller == Idle || (ControllerStopping(s.controller))
    requires forall a :: a in run ==> !a.OtherAttach? && !a.OtherDetach?
    ensures Run(s, run).target == OtherAdapter(id)
    decreases |run|
  {
    if run != [] {
      StepKeepsInv(s, run[0]);
      assert run[0] in run;
      StoppingSpares(s, run[0], id);
      DetachSparesNewerAdapter(Do(s, run[0]), run[1..], id);
    }
  }

  // ---------- the bound of one is reached ----------

  lemma {:induction false} RunAppend(s: Sys, run: seq<Step>, a: Step)
    requires Possible(s, run) && Enabled(Run(s, run), a)
    ensures Possible(s, run + [a]) && Run(s, run + [a]) == Do(Run(s, run), a)
    decreases |run|
  {
    if run == [] {
      assert run + [a] == [a];
    } else {
      RunAppend(Do(s, run[0]), run[1..], a);
      assert (run + [a])[1..] == run[1..] + [a];
    }
  }

  lemma Advance(s: Sys, a: Step) returns (t: Sys)
    requires Reachable(s) && Enabled(s, a)
    ensures t == Do(s, a) && Reachable(t)
  {
    var s0, run :| Init(s0) && Possible(s0, run) && Run(s0, run) == s;
    RunAppend(s0, run, a);
    t := Do(s, a);
  }

  /** An adapter with one engine thread has been started. */
  lemma StartedState() returns (s: Sys)
    ensures Reachable(s)
    ensures s == Sys(None, None, Nobody, false, true, [], Some(0), [Outside], AtLock, AtProxy(true))
  {
    s := Sys(None, None, Nobody, true, false, [], None, [Outside], NoThread, Idle);
    assert Init(s) && Possible(s, []) && Run(s, []) == s;
    s := Advance(s, BeginSetCallback(Some(0)));
    for k := 0 to 6
      invariant Reachable(s)
      invariant s == [
        Sys(None, None, Nobody, true, false, [], None, [Outside], NoThread, Entering(Some(0))),
        Sys(None, Some(Controller), Nobody, true, false, [], None, [Outside], NoThread, SetCallback(Some(0))),
        Sys(None, Some(Controller), Nobody, true, false, [], Some(0), [Outside], NoThread, StartAccept),
        Sys(None, Some(Controller), Nobody, true, true, [], Some(0), [Outside], NoThread, StartStop),
        Sys(None, Some(Controller), Nobody, false, true, [], Some(0), [Outside], NoThread, StartThread),
        Sys(None, Some(Controller), Nobody, false, true, [], Some(0), [Outside], AtLock, Unlock(true)),
        Sys(None, None, Nobody, false, true, [], Some(0), [Outside], AtLock, AtProxy(true))][k]
    {
      s := Advance(s, ControllerStep);
    }
  }

  /** And attached. */
  lemma AttachedState() returns (s: Sys)
    ensures Reachable(s)
    ensures s == Sys(None, None, ThisAdapter, false, true, [], Some(0), [Outside], AtLock, Idle)
  {
    s := StartedState();
    s := Advance(s, ControllerStep);
    s := Advance(s, ControllerStep);
  }

  /** The engine thread has passed both unlocked tests and a stop has begun. */
  lemma StopOvertakesLogger() returns (s: Sys)
    ensures Reachable(s)
    ensures s == Sys(Some(Logger(0)), None, ThisAdapter, false, true, [], Some(0), [AtQueue("late")], AtLock,
              Entering(None))
  {
    var c := Call(true, Some("late"));
    s := AttachedState();
    s := Advance(s, BeginLog(0, c));
    s := Advance(s, LoggerStep(0));
    s := Advance(s, LoggerStep(0));
    s := Advance(s, LoggerStep(0));
    s := Advance(s, LoggerStep(0));
    s := Advance(s, BeginSetCallback(None));
  }

  /** The stop has joined the dispatcher; the engine thread has still not pushed. */
  lemma StopJoinedBeforePush() returns (s: Sys)
    ensures Reachable(s)
    ensures s == Sys(Some(Logger(0)), None, ThisAdapter, true, false, [], None, [AtQueue("late")], NoThread,
              AtProxy(false))
  {
    s := StopOvertakesLogger();
    for k := 0 to 7
      invariant Reachable(s)
      invariant s == [
        Sys(Some(Logger(0)), None, ThisAdapter, false, true, [], Some(0), [AtQueue("late")], AtLock, Entering(None)),
        Sys(Some(Logger(0)), Some(Controller), ThisAdapter, false, true, [], Some(0), [AtQueue("late")], AtLock,
            SetCallback(None)),
        Sys(Some(Logger(0)), Some(Controller), ThisAdapter, false, true, [], None, [AtQueue("late")], AtLock, StopFlag),
        Sys(Some(Logger(0)), Some(Controller), ThisAdapter, true, true, [], None, [AtQueue("late")], AtLock,
            StopAccept),
        Sys(Some(Logger(0)), Some(Controller), ThisAdapter, true, false, [], None, [AtQueue("late")], AtLock,
            StopClear),
        Sys(Some(Logger(0)), Some(Controller), ThisAdapter, true, false, [], None, [AtQueue("late")], AtLock,
            StopUnlock),
        Sys(Some(Logger(0)), None, ThisAdapter, true, false, [], None, [AtQueue("late")], AtLock, StopNotify),
        Sys(Some(Logger(0)), None, ThisAdapter, true, false, [], None, [AtQueue("late")], AtLock, StopJoin)][k]
    {
      s := Advance(s, ControllerStep);
    }
    s := Advance(s, DispatcherStep);
    s := Advance(s, DispatcherStep);
    s := Advance(s, DispatcherStep);
    s := Advance(s, ControllerStep);
  }

  lemma PushedAfterJoin() returns (s: Sys)
    ensures Reachable(s)
    ensures s == Sys(Some(Logger(0)), None, ThisAdapter, true, false, ["late"], None, [Notifying], NoThread,
              AtProxy(false))
  {
    s := StopJoinedBeforePush();
    s := Advance(s, LoggerStep(0));
    s := Advance(s, LoggerStep(0));
    s := Advance(s, LoggerStep(0));
  }

  /** The bound of StoppedForGood is tight: a completed stop can leave a message behind. */
  lemma OneLateMessageIsPossible()
    ensures exists s :: Reachable(s) && s.stop && s.controller == Idle && s.messages == ["late"]
  {
    var s := PushedAfterJoin();
    s := Advance(s, LoggerStep(0));
    s := Advance(s, LoggerStep(0));
    s := Advance(s, ControllerStep);
    s := Advance(s, ControllerStep);
  }

  // ---------- no deadlock, and every stop completes ----------

  /** m_forward_mutex is always taken before m_mutex: no owner of m_mutex waits for it, a logger that
      owns m_mutex owns both, and join is reached holding neither. */
  lemma LockOrder(s: Sys)
    requires Reachable(s)
    ensures forall i :: 0 <= i < |s.loggers| && s.queueLock == Some(Logger(i)) ==> s.forward == Some(Logger(i))
    ensures forall i :: 0 <= i < |s.loggers| && s.loggers[i].AtForward? ==> s.queueLock != Some(Logger(i))
    ensures s.controller.AtProxy? || s.controller.StopJoin? ==> s.queueLock != Some(Controller)
    ensures s.controller.StopJoin? ==> s.forward != Some(Controller)
    ensures s.forward != Some(Dispatcher)
  {
    ReachableInv(s);
  }

  /** Nobody has anything left to do until new work arrives. */
  ghost predicate Quiescent(s: Sys) {
    && (forall i :: 0 <= i < |s.loggers| ==> s.loggers[i] == Outside)
    && s.controller == Idle
    && (s.dispatcher == NoThread || (s.dispatcher == Asleep && s.messages == [] && !s.stop))
  }

  /** Main result: in every reachable state that is not quiescent some thread can take its next step. */
  lemma NoDeadlock(s: Sys)
    requires Reachable(s) && !Quiescent(s)
    ensures exists a :: Internal(a) && Enabled(s, a)
  {
    ReachableInv(s);
    var a := SomeoneCanMove(s);
  }

  lemma SomeoneCanMove(s: Sys) returns (a: Step)
    requires Inv(s) && !Quiescent(s)
    ensures Internal(a) && Enabled(s, a)
  {
    if s.queueLock.Some? {
      a := OwnerCanMove(s);
    } else if s.forward.Some? {
      match s.forward.value
      case Logger(i) => a := LoggerStep(i);
      case Controller => a := ControllerStep;
      case Dispatcher => assert false;
    } else if i :| 0 <= i < |s.loggers| && s.loggers[i] != Outside {
      a := LoggerStep(i);
    } else if ControllerEnabled(s) {
      a := ControllerStep;
    } else {
      a := DispatcherStep;
    }
  }

  lemma OwnerCanMove(s: Sys) returns (a: Step)
    requires QueueLock(s) && s.queueLock.Some?
    ensures Internal(a) && Enabled(s, a)
  {
    match s.queueLock.value
    case Logger(i) => a := LoggerStep(i);
    case Controller => a := ControllerStep;
    case Dispatcher => a := DispatcherStep;
  }

  function LoggerRank(pc: LoggerPc): nat {
    match pc
    case Outside => 0
    case AtForward(_) => 10
    case ReadTarget(_) => 9
    case InOther => 2
    case ReadStop(_) => 8
    case ReadAccept(_) => 7
    case AtQueue(_) => 6
    case Pushing(_) => 5
    case Unlocking => 4
    case Notifying => 3
    case Leaving => 1
  }

  function DispatcherRank(pc: DispatcherPc): nat {
    match pc
    case NoThread => 0
    case Exited => 0
    case Asleep => 1
    case Taking => 2
    case Testing => 3
    case AtLock => 4
    case Delivering(rest, _) => 5 + 3 * |rest|
    case InCallback(rest, _) => 6 + 3 * |rest|
  }

  function ControllerRank(pc: ControllerPc): nat {
    match pc
    case Idle => 0
    case Entering(_) => 12
    case SetCallback(_) => 11
    case StartAccept => 10
    case StartStop => 9
    case StartThread => 8
    case StopFlag => 10
    case StopAccept => 9
    case StopClear => 8
    case StopUnlock => 7
    case StopNotify => 6
    case StopJoin => 5
    case Unlock(_) => 7
    case AtProxy(_) => 4
    case Retarget(_) => 3
  }

  function LoggerRanks(loggers: seq<LoggerPc>): nat {
    if loggers == [] then 0 else LoggerRank(loggers[0]) + LoggerRanks(loggers[1..])
  }

  /** An upper bound on the number of steps the threads can still take without new work. */
  function Remaining(s: Sys): nat {
    20 * LoggerRanks(s.loggers) + 20 * ControllerRank(s.controller) + 8 * |s.messages| + DispatcherRank(s.dispatcher)
  }

  lemma {:induction false} RanksAfterUpdate(loggers: seq<LoggerPc>, i: nat, pc: LoggerPc)
    requires i < |loggers|
    ensures LoggerRanks(loggers[i := pc]) == LoggerRanks(loggers) - LoggerRank(loggers[i]) + LoggerRank(pc)
  {
    if i == 0 {
      assert loggers[i := pc][1..] == loggers[1..];
    } else {
      RanksAfterUpdate(loggers[1..], i - 1, pc);
      assert loggers[i := pc][1..] == loggers[1..][i - 1 := pc];
    }
  }

  lemma LoggerStepShrinks(s: Sys, i: nat)
    requires i < |s.loggers| && LoggerEnabled(s, s.loggers[i])
    ensures Remaining(DoLogger(s, i)) < Remaining(s)
  {
    LoggerStepCosts(s, i);
    RanksAfterUpdate(s.loggers, i, DoLogger(s, i).loggers[i]);
  }

  lemma LoggerStepCosts(s: Sys, i: nat)
    requires i < |s.loggers| && LoggerEnabled(s, s.loggers[i])
    ensures var t := DoLogger(s, i);
            && t.loggers == s.loggers[i := t.loggers[i]] && LoggerRank(t.loggers[i]) < LoggerRank(s.loggers[i])
            && |t.messages| <= |s.messages| + 1 && DispatcherRank(t.dispatcher) <= DispatcherRank(s.dispatcher) + 3
            && t.controller == s.controller
  {
  }

  lemma DispatcherStepShrinks(s: Sys)
    requires DispatcherEnabled(s) && DispatcherHasWork(s)
    ensures Remaining(DoDispatcher(s)) < Remaining(s)
  {
  }

  lemma ControllerStepShrinks(s: Sys)
    requires ControllerEnabled(s) && Lifecycle(s)
    ensures Remaining(DoController(s)) < Remaining(s)
  {
  }

  lemma StepShrinks(s: Sys, a: Step)
    requires Inv(s) && Internal(a) && Enabled(s, a)
    ensures Remaining(Do(s, a)) < Remaining(s)
  {
    match a
    case LoggerStep(i) => LoggerStepShrinks(s, i);
    case DispatcherStep => DispatcherStepShrinks(s);
    case ControllerStep => ControllerStepShrinks(s);
  }

  predicate InternalRun(run: seq<Step>) {
    forall a :: a in run ==> Internal(a)
  }

  lemma {:induction false} InternalRunsAreShort(s: Sys, run: seq<Step>)
    requires Inv(s) && Possible(s, run) && InternalRun(run)
    ensures |run| + Remaining(Run(s, run)) <= Remaining(s)
    decreases |run|
  {
    if run != [] {
      assert run[0] in run;
      StepShrinks(s, run[0]);
      StepKeepsInv(s, run[0]);
      InternalRunsAreShort(Do(s, run[0]), run[1..]);
    }
  }

  /** Main result: however the threads are scheduled, they take at most Remaining(s) steps without
      new work, and when none can move any more the controller's call has returned; if that call was
      a stop, the dispatcher has been joined. Callbacks are assumed to return. */
  lemma EveryCallCompletes(s: Sys, run: seq<Step>)
    requires Reachable(s) && Possible(s, run) && InternalRun(run)
    ensures |run| <= Remaining(s)
    ensures (forall a :: Internal(a) ==> !Enabled(Run(s, run), a)) ==>
              Quiescent(Run(s, run)) && (Run(s, run).stop ==> Run(s, run).dispatcher == NoThread)
  {
    ReachableInv(s);
    InternalRunsAreShort(s, run);
    RunKeepsInv(s, run);
    if !Quiescent(Run(s, run)) {
      var a := SomeoneCanMove(Run(s, run));
    }
  }
}
