/** Progress of the logging pipeline over endless runs. Engine threads may begin new Log calls, other adapters
    may attach and detach, and waits may wake up spuriously, all for ever; still every set_callback returns.

    A play picks a step at every moment; a step that is not enabled is a pause in which nothing happens.
    Scheduling and mutexes are fair: a thread that can take its next step again and again takes it at last.
    Callbacks and other adapters' handlers return, since their steps are steps like any other. */
module LogLiveness {
  import opened Text
  import opened LogPipeline

  datatype Play = Play(at: nat -> Sys, step: nat -> Step)

  function Next(s: Sys, a: Step): Sys {
    if Enabled(s, a) then Do(s, a) else s
  }

  predicate Goes(p: Play, n: nat) {
    p.at(n + 1) == Next(p.at(n), p.step(n))
  }

  ghost predicate Legal(p: Play) {
    Init(p.at(0)) && forall n: nat :: Goes(p, n)
  }

  function StateAfter(start: Sys, step: nat -> Step, n: nat): Sys {
    if n == 0 then start else Next(StateAfter(start, step, n - 1), step(n - 1))
  }

  /** Every choice of steps is a play. */
  lemma EveryScheduleIsAPlay(start: Sys, step: nat -> Step)
    requires Init(start)
    ensures Legal(Play((n: nat) => StateAfter(start, step, n), step))
  {
    var p := Play((n: nat) => StateAfter(start, step, n), step);
    forall n: nat ensures Goes(p, n) {
      assert p.at(n + 1) == StateAfter(start, step, n + 1);
    }
  }

  predicate Taken(p: Play, a: Step, n: nat) {
    p.step(n) == a && Enabled(p.at(n), a)
  }

  ghost predicate TakenFrom(p: Play, a: Step, n: nat) {
    exists m: nat :: n <= m && Taken(p, a, m)
  }

  ghost predicate EnabledFrom(p: Play, a: Step, n: nat) {
    exists m: nat :: n <= m && Enabled(p.at(m), a)
  }

  ghost predicate Fair(p: Play) {
    forall a :: Internal(a) && (forall n: nat :: EnabledFrom(p, a, n)) ==> forall n: nat :: TakenFrom(p, a, n)
  }

  ghost predicate FairPlay(p: Play) {
    Legal(p) && Fair(p)
  }

  lemma {:induction false} InvAt(p: Play, n: nat)
    requires Legal(p)
    ensures Inv(p.at(n))
  {
    if n > 0 {
      InvAt(p, n - 1);
      assert Goes(p, n - 1);
      if Enabled(p.at(n - 1), p.step(n - 1)) {
        StepKeepsInv(p.at(n - 1), p.step(n - 1));
      }
    }
  }

  // ---------- what fairness gives ----------

  predicate NotTaken(p: Play, a: Step, n: nat, k: nat) {
    forall j :: n <= j < k ==> !Taken(p, a, j)
  }

  lemma {:induction false} FirstTaken(p: Play, a: Step, n: nat, last: nat) returns (m: nat)
    requires n <= last && Taken(p, a, last)
    ensures n <= m <= last && Taken(p, a, m) && NotTaken(p, a, n, m)
    decreases last - n
  {
    if Taken(p, a, n) {
      m := n;
    } else {
      m := FirstTaken(p, a, n + 1, last);
    }
  }

  lemma IsTaken(p: Play, a: Step, n: nat)
    requires Fair(p) && Internal(a)
    requires forall k: nat :: n <= k && NotTaken(p, a, n, k) ==> EnabledFrom(p, a, k)
    ensures TakenFrom(p, a, n)
  {
    forall k: nat ensures EnabledFrom(p, a, k) || TakenFrom(p, a, n) {
      var later := if k < n then n else k;
      assert NotTaken(p, a, n, later) || TakenFrom(p, a, n);
    }
  }

  /** A step that stays possible until it is taken is taken. */
  lemma MustMove(p: Play, a: Step, n: nat) returns (m: nat)
    requires Fair(p) && Internal(a)
    requires forall k: nat :: n <= k && NotTaken(p, a, n, k) ==> EnabledFrom(p, a, k)
    ensures n <= m && Taken(p, a, m) && NotTaken(p, a, n, m)
  {
    IsTaken(p, a, n);
    var last: nat :| n <= last && Taken(p, a, last);
    m := FirstTaken(p, a, n, last);
  }

  // ---------- who changes a program counter ----------

  predicate IsAt(s: Sys, i: nat, pc: LoggerPc) {
    i < |s.loggers| && s.loggers[i] == pc
  }

  /** Running, and not asleep. */
  predicate Working(pc: DispatcherPc) {
    Live(pc) && pc != Asleep
  }

  lemma LoggerMovesItself(s: Sys, a: Step, i: nat, pc: LoggerPc)
    requires Enabled(s, a) && IsAt(s, i, pc) && pc != Outside && a != LoggerStep(i)
    ensures IsAt(Do(s, a), i, pc)
  {
  }

  lemma ControllerMovesItself(s: Sys, a: Step)
    requires Enabled(s, a) && s.controller != Idle && a != ControllerStep
    ensures Do(s, a).controller == s.controller
  {
  }

  lemma DispatcherMovesItself(s: Sys, a: Step)
    requires Inv(s) && Enabled(s, a) && Working(s.dispatcher) && a != DispatcherStep
    ensures Do(s, a).dispatcher == s.dispatcher
  {
  }

  lemma LoggerStaysOnce(p: Play, i: nat, pc: LoggerPc, n: nat)
    requires Legal(p) && IsAt(p.at(n), i, pc) && pc != Outside && !Taken(p, LoggerStep(i), n)
    ensures IsAt(p.at(n + 1), i, pc)
  {
    assert Goes(p, n);
    if Enabled(p.at(n), p.step(n)) {
      LoggerMovesItself(p.at(n), p.step(n), i, pc);
    }
  }

  lemma {:induction false} LoggerStays(p: Play, i: nat, pc: LoggerPc, n: nat, k: nat)
    requires Legal(p) && n <= k && IsAt(p.at(n), i, pc) && pc != Outside && NotTaken(p, LoggerStep(i), n, k)
    ensures IsAt(p.at(k), i, pc)
    decreases k - n
  {
    if n < k {
      LoggerStaysOnce(p, i, pc, n);
      LoggerStays(p, i, pc, n + 1, k);
    }
  }

  lemma ControllerStaysOnce(p: Play, n: nat)
    requires Legal(p) && p.at(n).controller != Idle && !Taken(p, ControllerStep, n)
    ensures p.at(n + 1).controller == p.at(n).controller
  {
    assert Goes(p, n);
    if Enabled(p.at(n), p.step(n)) {
      ControllerMovesItself(p.at(n), p.step(n));
    }
  }

  lemma {:induction false} ControllerStays(p: Play, n: nat, k: nat)
    requires Legal(p) && n <= k && p.at(n).controller != Idle && NotTaken(p, ControllerStep, n, k)
    ensures p.at(k).controller == p.at(n).controller
    decreases k - n
  {
    if n < k {
      ControllerStaysOnce(p, n);
      ControllerStays(p, n + 1, k);
    }
  }

  lemma DispatcherStaysOnce(p: Play, n: nat)
    requires Legal(p) && Working(p.at(n).dispatcher) && !Taken(p, DispatcherStep, n)
    ensures p.at(n + 1).dispatcher == p.at(n).dispatcher
  {
    InvAt(p, n);
    assert Goes(p, n);
    if Enabled(p.at(n), p.step(n)) {
      DispatcherMovesItself(p.at(n), p.step(n));
    }
  }

  lemma {:induction false} DispatcherStays(p: Play, n: nat, k: nat)
    requires Legal(p) && n <= k && Working(p.at(n).dispatcher) && NotTaken(p, DispatcherStep, n, k)
    ensures p.at(k).dispatcher == p.at(n).dispatcher
    decreases k - n
  {
    if n < k {
      DispatcherStaysOnce(p, n);
      DispatcherStays(p, n + 1, k);
    }
  }

  // ---------- threads that need no lock move ----------

  lemma SteadyLogger(p: Play, i: nat, pc: LoggerPc, n: nat) returns (m: nat)
    requires FairPlay(p) && IsAt(p.at(n), i, pc) && pc != Outside && !pc.AtForward? && !pc.AtQueue?
    ensures n <= m && Taken(p, LoggerStep(i), m) && IsAt(p.at(m), i, pc)
  {
    forall k: nat | n <= k && NotTaken(p, LoggerStep(i), n, k) ensures EnabledFrom(p, LoggerStep(i), k) {
      LoggerStays(p, i, pc, n, k);
      assert Enabled(p.at(k), LoggerStep(i));
    }
    m := MustMove(p, LoggerStep(i), n);
    LoggerStays(p, i, pc, n, m);
  }

  lemma SteadyController(p: Play, n: nat) returns (m: nat)
    requires FairPlay(p) && var pc := p.at(n).controller;
             pc != Idle && !pc.Entering? && !pc.AtProxy? && !pc.StopJoin?
    ensures n <= m && Taken(p, ControllerStep, m) && p.at(m).controller == p.at(n).controller
  {
    forall k: nat | n <= k && NotTaken(p, ControllerStep, n, k) ensures EnabledFrom(p, ControllerStep, k) {
      ControllerStays(p, n, k);
      assert Enabled(p.at(k), ControllerStep);
    }
    m := MustMove(p, ControllerStep, n);
    ControllerStays(p, n, m);
  }

  lemma SteadyDispatcher(p: Play, n: nat) returns (m: nat)
    requires FairPlay(p) && Working(p.at(n).dispatcher) && p.at(n).dispatcher != AtLock
    ensures n <= m && Taken(p, DispatcherStep, m) && p.at(m).dispatcher == p.at(n).dispatcher
  {
    forall k: nat | n <= k && NotTaken(p, DispatcherStep, n, k) ensures EnabledFrom(p, DispatcherStep, k) {
      DispatcherStays(p, n, k);
      assert Enabled(p.at(k), DispatcherStep);
    }
    m := MustMove(p, DispatcherStep, n);
    DispatcherStays(p, n, m);
  }

  // ---------- the mutexes are released again and again ----------

  function QueueRank(s: Sys): nat {
    match s.queueLock
    case None => 0
    case Some(Logger(i)) => if i < |s.loggers| then LoggerRank(s.loggers[i]) else 0
    case Some(Dispatcher) => DispatcherRank(s.dispatcher)
    case Some(Controller) => ControllerRank(s.controller)
  }

  /** The step the owner of m_mutex takes next. */
  function OwnersStep(s: Sys): Step
    requires s.queueLock.Some?
  {
    match s.queueLock.value
    case Logger(i) => LoggerStep(i)
    case Dispatcher => DispatcherStep
    case Controller => ControllerStep
  }

  /** The owner of m_mutex is where it was. */
  predicate OwnerStays(s: Sys, t: Sys)
    requires s.queueLock.Some?
  {
    match s.queueLock.value
    case Logger(i) => i < |s.loggers| && IsAt(t, i, s.loggers[i])
    case Dispatcher => t.dispatcher == s.dispatcher
    case Controller => t.controller == s.controller
  }

  lemma OwnerComes(p: Play, n: nat, s: Sys) returns (m: nat)
    requires FairPlay(p) && s == p.at(n) && s.queueLock.Some? && QueueLock(s)
    ensures n <= m && Taken(p, OwnersStep(s), m) && OwnerStays(s, p.at(m))
  {
    match s.queueLock.value {
      case Logger(i) => m := SteadyLogger(p, i, s.loggers[i], n);
      case Dispatcher => m := SteadyDispatcher(p, n);
      case Controller => m := SteadyController(p, n);
    }
  }

  /** Its step releases the mutex or brings it closer to that. */
  lemma OwnerStep(s: Sys, t: Sys)
    requires QueueLock(s) && QueueLock(t) && s.queueLock.Some? && OwnerStays(s, t)
    ensures t.queueLock == s.queueLock
    ensures Enabled(t, OwnersStep(s)) ==> QueueRank(Do(t, OwnersStep(s))) < QueueRank(s)
  {
  }

  lemma OwnerMoves(p: Play, n: nat) returns (m: nat)
    requires FairPlay(p) && p.at(n).queueLock.Some?
    ensures n <= m && QueueRank(p.at(m + 1)) < QueueRank(p.at(n))
  {
    InvAt(p, n);
    m := OwnerComes(p, n, p.at(n));
    InvAt(p, m);
    OwnerStep(p.at(n), p.at(m));
    assert Goes(p, m);
  }

  lemma {:induction false} QueueFrees(p: Play, n: nat) returns (m: nat)
    requires FairPlay(p)
    ensures n <= m && p.at(m).queueLock == None
    decreases QueueRank(p.at(n))
  {
    if p.at(n).queueLock == None {
      return n;
    }
    m := OwnerMoves(p, n);
    m := QueueFrees(p, m + 1);
  }

  lemma TakenSoEnabled(p: Play, a: Step, n: nat, k: nat)
    requires !NotTaken(p, a, n, k)
    ensures EnabledFrom(p, a, n)
  {
    var j :| n <= j < k && Taken(p, a, j);
  }

  /** An engine thread past the forward mutex always gets on: m_mutex becomes free, and fairness gives it. */
  lemma LoggerMoves(p: Play, i: nat, pc: LoggerPc, n: nat) returns (m: nat)
    requires FairPlay(p) && IsAt(p.at(n), i, pc) && HoldsForward(pc)
    ensures n <= m && Taken(p, LoggerStep(i), m) && IsAt(p.at(m), i, pc)
  {
    if !pc.AtQueue? {
      m := SteadyLogger(p, i, pc, n);
      return;
    }
    var a := LoggerStep(i);
    forall k: nat | n <= k && NotTaken(p, a, n, k) ensures EnabledFrom(p, a, k) {
      var free := QueueFrees(p, k);
      if NotTaken(p, a, k, free) {
        LoggerStays(p, i, pc, n, k);
        LoggerStays(p, i, pc, k, free);
        assert Enabled(p.at(free), a);
      } else {
        TakenSoEnabled(p, a, k, free);
      }
    }
    m := MustMove(p, a, n);
    LoggerStays(p, i, pc, n, m);
  }

  function ForwardRank(s: Sys): nat {
    match s.forward
    case None => 0
    case Some(Logger(i)) => if i < |s.loggers| then LoggerRank(s.loggers[i]) else 0
    case Some(Dispatcher) => 0
    case Some(Controller) => ControllerRank(s.controller)
  }

  /** The step the owner of m_forward_mutex takes next; the dispatcher never owns it. */
  function ForwardOwnersStep(s: Sys): Step
    requires s.forward.Some?
  {
    if s.forward.value.Logger? then LoggerStep(s.forward.value.i) else ControllerStep
  }

  /** The owner of m_forward_mutex is where it was. */
  predicate ForwardOwnerStays(s: Sys, t: Sys)
    requires s.forward.Some?
  {
    match s.forward.value
    case Logger(i) => i < |s.loggers| && IsAt(t, i, s.loggers[i])
    case Dispatcher => false
    case Controller => t.controller == s.controller
  }

  lemma ForwardOwnerComes(p: Play, n: nat, s: Sys) returns (m: nat)
    requires FairPlay(p) && s == p.at(n) && s.forward.Some? && ForwardLock(s)
    ensures n <= m && Taken(p, ForwardOwnersStep(s), m) && ForwardOwnerStays(s, p.at(m))
  {
    if s.forward.value.Logger? {
      m := LoggerMoves(p, s.forward.value.i, s.loggers[s.forward.value.i], n);
    } else {
      m := SteadyController(p, n);
    }
  }

  lemma LoggerRankFalls(s: Sys, i: nat)
    requires i < |s.loggers| && LoggerEnabled(s, s.loggers[i]) && s.forward == Some(Logger(i))
    ensures ForwardRank(DoLogger(s, i)) < LoggerRank(s.loggers[i])
  {
  }

  /** Likewise for m_forward_mutex. */
  lemma ForwardOwnerStep(s: Sys, t: Sys)
    requires ForwardLock(s) && ForwardLock(t) && s.forward.Some? && ForwardOwnerStays(s, t)
    ensures t.forward == s.forward
    ensures Enabled(t, ForwardOwnersStep(s)) ==> ForwardRank(Do(t, ForwardOwnersStep(s))) < ForwardRank(s)
  {
    if s.forward.value.Logger? && Enabled(t, LoggerStep(s.forward.value.i)) {
      LoggerRankFalls(t, s.forward.value.i);
    }
  }

  lemma ForwardOwnerMoves(p: Play, n: nat) returns (m: nat)
    requires FairPlay(p) && p.at(n).forward.Some?
    ensures n <= m && ForwardRank(p.at(m + 1)) < ForwardRank(p.at(n))
  {
    InvAt(p, n);
    m := ForwardOwnerComes(p, n, p.at(n));
    InvAt(p, m);
    ForwardOwnerStep(p.at(n), p.at(m));
    assert Goes(p, m);
  }

  lemma {:induction false} ForwardFrees(p: Play, n: nat) returns (m: nat)
    requires FairPlay(p)
    ensures n <= m && p.at(m).forward == None
    decreases ForwardRank(p.at(n))
  {
    if p.at(n).forward == None {
      return n;
    }
    m := ForwardOwnerMoves(p, n);
    m := ForwardFrees(p, m + 1);
  }

  // ---------- the dispatcher of a stopped adapter exits ----------

  /** The controller waits in join. */
  predicate Joining(s: Sys) {
    s.controller == StopJoin && s.dispatcher != Exited
  }

  /** One for a message that a logger may still push, although the flags are down. */
  function LateOwner(s: Sys): nat {
    if s.forward.Some? && s.forward.value.Logger? && s.forward.value.i < |s.loggers|
        && Late(s.loggers[s.forward.value.i])
    then 1 else 0
  }

  function WorkRank(pc: DispatcherPc): nat {
    match pc
    case NoThread => 0
    case Exited => 0
    case Taking => 2
    case Testing => 3
    case AtLock => 4
    case Asleep => 5
    case Delivering(rest, _) => 5 + 3 * |rest|
    case InCallback(rest, _) => 6 + 3 * |rest|
  }

  /** A bound on the steps the dispatcher has still to take. */
  function StopWork(s: Sys): nat {
    8 * (|s.messages| + LateOwner(s)) + WorkRank(s.dispatcher)
  }

  /** From the moment both flags are down to join. */
  predicate WindingDown(pc: ControllerPc) {
    pc.StopClear? || pc.StopUnlock? || pc.StopNotify? || pc.StopJoin?
  }

  /** New Log calls, other adapters and spurious wakeups do not add to that work. */
  lemma OthersAddNoWork(s: Sys, a: Step)
    requires Inv(s) && WindingDown(s.controller) && Enabled(s, a) && a != DispatcherStep && a != ControllerStep
    ensures StopWork(Do(s, a)) <= StopWork(s) && Do(s, a).controller == s.controller
    ensures Do(s, a).dispatcher == Exited ==> s.dispatcher == Exited
  {
  }

  lemma DispatcherWorksOff(s: Sys)
    requires Inv(s) && WindingDown(s.controller) && DispatcherEnabled(s)
    ensures StopWork(DoDispatcher(s)) < StopWork(s) && DoDispatcher(s).controller == s.controller
  {
  }

  lemma ControllerWindsDown(s: Sys)
    requires Inv(s) && WindingDown(s.controller) && ControllerEnabled(s) && !s.controller.StopJoin?
    ensures StopWork(DoController(s)) <= StopWork(s) && WindingDown(DoController(s).controller)
    ensures ControllerRank(DoController(s).controller) < ControllerRank(s.controller)
  {
  }

  lemma StillJoiningOnce(p: Play, n: nat)
    requires FairPlay(p) && Joining(p.at(n)) && !Taken(p, DispatcherStep, n)
    ensures Joining(p.at(n + 1)) && StopWork(p.at(n + 1)) <= StopWork(p.at(n))
  {
    InvAt(p, n);
    assert Goes(p, n);
    if Enabled(p.at(n), p.step(n)) {
      OthersAddNoWork(p.at(n), p.step(n));
    }
  }

  /** While no dispatcher step is taken, the controller goes on waiting in join and no work is added. */
  lemma {:induction false} StillJoining(p: Play, n: nat, k: nat)
    requires FairPlay(p) && n <= k && Joining(p.at(n)) && NotTaken(p, DispatcherStep, n, k)
    ensures Joining(p.at(k)) && StopWork(p.at(k)) <= StopWork(p.at(n))
    decreases k - n
  {
    if n < k {
      StillJoiningOnce(p, n);
      StillJoining(p, n + 1, k);
    }
  }

  lemma LoggerTakes(s: Sys, i: nat)
    requires i < |s.loggers| && LoggerEnabled(s, s.loggers[i])
    ensures s.loggers[i] == Unlocking ==> IsAt(DoLogger(s, i), i, Notifying)
    ensures s.loggers[i] == Notifying ==> DoLogger(s, i).dispatcher != Asleep
  {
  }

  lemma Unlocks(p: Play, i: nat, n: nat) returns (m: nat)
    requires FairPlay(p) && IsAt(p.at(n), i, Unlocking)
    ensures n <= m && IsAt(p.at(m), i, Notifying)
  {
    m := SteadyLogger(p, i, Unlocking, n);
    LoggerTakes(p.at(m), i);
    assert Goes(p, m);
    m := m + 1;
  }

  lemma Notifies(p: Play, i: nat, n: nat) returns (m: nat)
    requires FairPlay(p) && IsAt(p.at(n), i, Notifying)
    ensures n <= m && p.at(m).dispatcher != Asleep
  {
    m := SteadyLogger(p, i, Notifying, n);
    LoggerTakes(p.at(m), i);
    assert Goes(p, m);
    m := m + 1;
  }

  /** A logger is committed to notify_all. */
  predicate LoggerNotifies(s: Sys) {
    && s.forward.Some? && s.forward.value.Logger? && s.forward.value.i < |s.loggers|
    && (s.loggers[s.forward.value.i].Unlocking? || s.loggers[s.forward.value.i].Notifying?)
  }

  /** A sleeping dispatcher is woken up: the logger that is committed to notify_all gets there. */
  lemma Wakes(p: Play, n: nat) returns (m: nat)
    requires FairPlay(p) && (p.at(n).dispatcher == Asleep ==> LoggerNotifies(p.at(n)))
    ensures n <= m && p.at(m).dispatcher != Asleep
  {
    var s := p.at(n);
    if s.dispatcher != Asleep {
      return n;
    }
    var i := s.forward.value.i;
    m := n;
    if s.loggers[i] == Unlocking {
      m := Unlocks(p, i, n);
    }
    m := Notifies(p, i, m);
  }

  lemma AwakeComes(p: Play, n: nat)
    requires FairPlay(p) && Working(p.at(n).dispatcher)
    ensures EnabledFrom(p, DispatcherStep, n)
  {
    var free := QueueFrees(p, n);
    if p.at(n).dispatcher != AtLock {
      assert Enabled(p.at(n), DispatcherStep);
    } else if NotTaken(p, DispatcherStep, n, free) {
      DispatcherStays(p, n, free);
      assert Enabled(p.at(free), DispatcherStep);
    } else {
      TakenSoEnabled(p, DispatcherStep, n, free);
    }
  }

  lemma DispatcherComes(p: Play, n: nat)
    requires FairPlay(p) && Joining(p.at(n))
    ensures EnabledFrom(p, DispatcherStep, n)
  {
    InvAt(p, n);
    var awake := Wakes(p, n);
    if NotTaken(p, DispatcherStep, n, awake) {
      StillJoining(p, n, awake);
      InvAt(p, awake);
      AwakeComes(p, awake);
    } else {
      TakenSoEnabled(p, DispatcherStep, n, awake);
    }
  }

  lemma DispatcherNext(p: Play, n: nat) returns (m: nat)
    requires FairPlay(p) && Joining(p.at(n))
    ensures n <= m && Taken(p, DispatcherStep, m)
    ensures Joining(p.at(m)) && StopWork(p.at(m)) <= StopWork(p.at(n))
  {
    forall k: nat | n <= k && NotTaken(p, DispatcherStep, n, k) ensures EnabledFrom(p, DispatcherStep, k) {
      StillJoining(p, n, k);
      DispatcherComes(p, k);
    }
    m := MustMove(p, DispatcherStep, n);
    StillJoining(p, n, m);
  }

  lemma {:induction false} DispatcherExits(p: Play, n: nat) returns (m: nat)
    requires FairPlay(p) && p.at(n).controller == StopJoin
    ensures n <= m && p.at(m).controller == StopJoin && p.at(m).dispatcher == Exited
    decreases StopWork(p.at(n))
  {
    if p.at(n).dispatcher == Exited {
      return n;
    }
    m := DispatcherNext(p, n);
    InvAt(p, m);
    DispatcherWorksOff(p.at(m));
    assert Goes(p, m);
    m := DispatcherExits(p, m + 1);
  }

  // ---------- every call returns ----------

  lemma ControllerComes(p: Play, n: nat)
    requires FairPlay(p) && p.at(n).controller != Idle
    ensures EnabledFrom(p, ControllerStep, n)
  {
    var pc, m := p.at(n).controller, n;
    if pc.Entering? {
      m := QueueFrees(p, n);
    } else if pc.AtProxy? {
      m := ForwardFrees(p, n);
    } else if pc.StopJoin? {
      m := DispatcherExits(p, n);
    }
    if NotTaken(p, ControllerStep, n, m) {
      ControllerStays(p, n, m);
      assert Enabled(p.at(m), ControllerStep);
    } else {
      TakenSoEnabled(p, ControllerStep, n, m);
    }
  }

  lemma ControllerMoves(p: Play, n: nat) returns (m: nat)
    requires FairPlay(p) && p.at(n).controller != Idle
    ensures n <= m && Taken(p, ControllerStep, m) && p.at(m).controller == p.at(n).controller
  {
    forall k: nat | n <= k && NotTaken(p, ControllerStep, n, k) ensures EnabledFrom(p, ControllerStep, k) {
      ControllerStays(p, n, k);
      ControllerComes(p, k);
    }
    m := MustMove(p, ControllerStep, n);
    ControllerStays(p, n, m);
  }

  lemma ControllerStepOnward(s: Sys)
    requires Inv(s) && ControllerEnabled(s)
    ensures var t := DoController(s);
            && ControllerRank(t.controller) < ControllerRank(s.controller)
            && (ControllerStopping(s.controller) ==> ControllerStopping(t.controller) || Quiet(t))
  {
  }

  lemma ControllerOnward(p: Play, n: nat)
    requires Legal(p) && Taken(p, ControllerStep, n)
    ensures ControllerRank(p.at(n + 1).controller) < ControllerRank(p.at(n).controller)
    ensures ControllerStopping(p.at(n).controller) ==> ControllerStopping(p.at(n + 1).controller) || Quiet(p.at(n + 1))
    ensures Quiet(p.at(n + 1)) ==> |p.at(n + 1).messages| <= 1
  {
    InvAt(p, n);
    InvAt(p, n + 1);
    ControllerStepOnward(p.at(n));
    assert Goes(p, n);
  }

  /** Main result: in every fair play every set_callback returns, however long engine threads go on logging;
      and when a set_callback(nullptr) returns, the adapter is stopped and at most one message is left. */
  lemma {:induction false} EveryCallReturns(p: Play, n: nat) returns (m: nat)
    requires FairPlay(p)
    ensures n <= m && p.at(m).controller == Idle
    ensures ControllerStopping(p.at(n).controller) ==> Quiet(p.at(m)) && |p.at(m).messages| <= 1
    decreases ControllerRank(p.at(n).controller)
  {
    m := n;
    if p.at(n).controller != Idle {
      m := ControllerMoves(p, n);
      ControllerOnward(p, m);
      if p.at(m + 1).controller == Idle {
        m := m + 1;
      } else {
        m := EveryCallReturns(p, m + 1);
      }
    }
  }

  lemma LoggerEnters(p: Play, i: nat, pc: LoggerPc, n: nat) returns (m: nat)
    requires FairPlay(p) && IsAt(p.at(n), i, pc) && pc.AtForward?
    ensures n <= m && Taken(p, LoggerStep(i), m) && IsAt(p.at(m), i, pc)
  {
    var a := LoggerStep(i);
    forall k: nat | n <= k && NotTaken(p, a, n, k) ensures EnabledFrom(p, a, k) {
      var free := ForwardFrees(p, k);
      if NotTaken(p, a, k, free) {
        LoggerStays(p, i, pc, n, k);
        LoggerStays(p, i, pc, k, free);
        assert Enabled(p.at(free), a);
      } else {
        TakenSoEnabled(p, a, k, free);
      }
    }
    m := MustMove(p, a, n);
    LoggerStays(p, i, pc, n, m);
  }

  /** Main result: so does every Log call. */
  lemma {:induction false} EveryLogReturns(p: Play, i: nat, n: nat) returns (m: nat)
    requires FairPlay(p) && i < |p.at(n).loggers|
    ensures n <= m && IsAt(p.at(m), i, Outside)
    decreases LoggerRank(p.at(n).loggers[i])
  {
    var pc := p.at(n).loggers[i];
    if pc == Outside {
      return n;
    }
    if pc.AtForward? {
      m := LoggerEnters(p, i, pc, n);
    } else {
      m := LoggerMoves(p, i, pc, n);
    }
    assert Goes(p, m);
    m := EveryLogReturns(p, i, m + 1);
  }

  // ---------- how long a stop takes ----------

  /** Steps of the dispatcher and the controller. */
  function OwnSteps(run: seq<Step>): nat {
    if run == [] then 0 else OwnSteps(run[1..]) + if run[0] == DispatcherStep || run[0] == ControllerStep then 1 else 0
  }

  /** The stop is between its flags and its join all along the run. */
  predicate WindsDown(s: Sys, run: seq<Step>)
    requires Possible(s, run)
    decreases |run|
  {
    WindingDown(s.controller) && (run == [] || WindsDown(Do(s, run[0]), run[1..]))
  }

  lemma WindingStep(s: Sys, a: Step)
    requires Inv(s) && Enabled(s, a) && WindingDown(s.controller) && WindingDown(Do(s, a).controller)
    ensures var own := if a == DispatcherStep || a == ControllerStep then 1 else 0;
            StopWork(Do(s, a)) + ControllerRank(Do(s, a).controller) + own <= StopWork(s) + ControllerRank(s.controller)
  {
    if a == DispatcherStep {
      DispatcherWorksOff(s);
    } else if a == ControllerStep {
      ControllerWindsDown(s);
    } else {
      OthersAddNoWork(s, a);
    }
  }

  /** Main result: whatever the engine threads do meanwhile, and however many Log calls begin, a stop needs
      only so many steps of its two threads. No fairness is assumed. */
  lemma {:induction false} StopIsBounded(s: Sys, run: seq<Step>)
    requires Inv(s) && Possible(s, run) && WindsDown(s, run)
    ensures OwnSteps(run) <= StopWork(s) + ControllerRank(s.controller)
    decreases |run|
  {
    if run != [] {
      var a := run[0];
      StepKeepsInv(s, a);
      StopIsBounded(Do(s, a), run[1..]);
      WindingStep(s, a);
    }
  }

  // ---------- a fair play in which an engine thread logs for ever ----------

  const HELLO := Call(true, Some("hello"))

  /** The states of an adapter that is being started and attached. */
  function StartingState(k: nat): Sys {
    match k
    case 0 => Sys(None, None, Nobody, true, false, [], None, [Outside], NoThread, Idle)
    case 1 => Sys(None, None, Nobody, true, false, [], None, [Outside], NoThread, Entering(Some(0)))
    case 2 => Sys(None, Some(Controller), Nobody, true, false, [], None, [Outside], NoThread, SetCallback(Some(0)))
    case 3 => Sys(None, Some(Controller), Nobody, true, false, [], Some(0), [Outside], NoThread, StartAccept)
    case 4 => Sys(None, Some(Controller), Nobody, true, true, [], Some(0), [Outside], NoThread, StartStop)
    case 5 => Sys(None, Some(Controller), Nobody, false, true, [], Some(0), [Outside], NoThread, StartThread)
    case 6 => Sys(None, Some(Controller), Nobody, false, true, [], Some(0), [Outside], AtLock, Unlock(true))
    case 7 => Sys(None, None, Nobody, false, true, [], Some(0), [Outside], AtLock, AtProxy(true))
    case _ => Sys(Some(Controller), None, Nobody, false, true, [], Some(0), [Outside], AtLock, Retarget(true))
  }

  function StartingStep(k: nat): Step {
    if k == 0 then BeginSetCallback(Some(0)) else ControllerStep
  }

  function Attached(forward: Option<Thread>, queue: Option<Thread>, messages: seq<string>, pc: LoggerPc,
                    dispatcher: DispatcherPc): Sys
  {
    Sys(forward, queue, ThisAdapter, false, true, messages, Some(0), [pc], dispatcher, Idle)
  }

  /** The states in which one message after the other is logged and delivered. */
  function LoggingState(k: nat): Sys {
    var us := Some(Logger(0));
    match k
    case 0 => Attached(None, None, [], Outside, AtLock)
    case 1 => Attached(None, None, [], AtForward(HELLO), AtLock)
    case 2 => Attached(us, None, [], ReadTarget(HELLO), AtLock)
    case 3 => Attached(us, None, [], ReadStop(HELLO), AtLock)
    case 4 => Attached(us, None, [], ReadAccept(HELLO), AtLock)
    case 5 => Attached(us, None, [], AtQueue("hello"), AtLock)
    case 6 => Attached(us, us, [], Pushing("hello"), AtLock)
    case 7 => Attached(us, us, ["hello"], Unlocking, AtLock)
    case 8 => Attached(us, None, ["hello"], Notifying, AtLock)
    case 9 => Attached(us, None, ["hello"], Leaving, AtLock)
    case 10 => Attached(None, None, ["hello"], Outside, AtLock)
    case 11 => Attached(None, Some(Dispatcher), ["hello"], Outside, Testing)
    case 12 => Attached(None, Some(Dispatcher), ["hello"], Outside, Taking)
    case 13 => Attached(None, None, [], Outside, Delivering(["hello"], Some(0)))
    case 14 => Attached(None, None, [], Outside, InCallback([], Some(0)))
    case _ => Attached(None, None, [], Outside, Delivering([], Some(0)))
  }

  function LoggingStep(k: nat): Step {
    if k == 0 then BeginLog(0, HELLO) else if k < 10 then LoggerStep(0) else DispatcherStep
  }

  const ENDLESS := Play(
    (n: nat) => if n < 9 then StartingState(n) else LoggingState((n - 9) % 16),
    (n: nat) => if n < 9 then StartingStep(n) else LoggingStep((n - 9) % 16))

  lemma StartingGoes(k: nat)
    requires k < 9
    ensures Next(StartingState(k), StartingStep(k)) == if k < 8 then StartingState(k + 1) else LoggingState(0)
  {
  }

  lemma EnteringGoes(k: nat)
    requires k < 5
    ensures Next(LoggingState(k), LoggingStep(k)) == LoggingState(k + 1)
  {
  }

  lemma LoggingGoes(k: nat)
    requires 5 <= k < 10
    ensures Next(LoggingState(k), LoggingStep(k)) == LoggingState(k + 1)
  {
  }

  lemma DeliveringGoes(k: nat)
    requires 10 <= k < 16
    ensures Next(LoggingState(k), LoggingStep(k)) == LoggingState(if k == 15 then 0 else k + 1)
  {
    assert ["hello"][1..] == [];
  }

  lemma NextStage(n: nat)
    ensures (n + 1) % 16 == if n % 16 == 15 then 0 else n % 16 + 1
  {
  }

  lemma RoundGoes(k: nat)
    requires k < 16
    ensures Next(LoggingState(k), LoggingStep(k)) == LoggingState(if k == 15 then 0 else k + 1)
  {
    if k < 5 {
      EnteringGoes(k);
    } else if k < 10 {
      LoggingGoes(k);
    } else {
      DeliveringGoes(k);
    }
  }

  lemma EndlessGoes(n: nat)
    ensures Goes(ENDLESS, n)
  {
    if n < 9 {
      StartingGoes(n);
    } else {
      NextStage(n - 9);
      RoundGoes((n - 9) % 16);
    }
  }

  /** The moment at which stage k of round n is reached. */
  function Moment(n: nat, k: nat): nat {
    9 + 16 * n + k
  }

  lemma EndlessAt(n: nat, k: nat)
    requires k < 16
    ensures ENDLESS.at(Moment(n, k)) == LoggingState(k) && ENDLESS.step(Moment(n, k)) == LoggingStep(k)
  {
    assert (16 * n + k) % 16 == k;
  }

  lemma EndlessTakes(n: nat)
    ensures Taken(ENDLESS, BeginLog(0, HELLO), Moment(n, 0))
    ensures Taken(ENDLESS, LoggerStep(0), Moment(n, 1))
    ensures Taken(ENDLESS, DispatcherStep, Moment(n, 11))
  {
    EndlessAt(n, 0);
    EndlessAt(n, 1);
    EndlessAt(n, 11);
  }

  /** No other thread's step is enabled once the adapter is attached. */
  lemma EndlessOthersRest(a: Step, n: nat)
    requires Internal(a) && a != LoggerStep(0) && a != DispatcherStep && n >= 9
    ensures !Enabled(ENDLESS.at(n), a)
  {
    assert |LoggingState((n - 9) % 16).loggers| == 1 && LoggingState((n - 9) % 16).controller == Idle;
  }

  /** There are fair plays in which a Log call begins again and again. */
  lemma EndlessIsFair()
    ensures FairPlay(ENDLESS)
    ensures forall n: nat :: TakenFrom(ENDLESS, BeginLog(0, HELLO), n)
  {
    forall n: nat ensures Goes(ENDLESS, n) {
      EndlessGoes(n);
    }
    forall n: nat
      ensures TakenFrom(ENDLESS, BeginLog(0, HELLO), n)
      ensures TakenFrom(ENDLESS, LoggerStep(0), n) && TakenFrom(ENDLESS, DispatcherStep, n)
    {
      EndlessTakes(n);
    }
    forall a | Internal(a) && a != LoggerStep(0) && a != DispatcherStep
      ensures !EnabledFrom(ENDLESS, a, 9)
    {
      forall n: nat | 9 <= n ensures !Enabled(ENDLESS.at(n), a) {
        EndlessOthersRest(a, n);
      }
    }
  }
}
