/** What one Log call, one set_callback call and the dispatcher of the Spew adapter come to: the counterpart of
    LogCalls. The hook is tested under the lock, so here the state at a single step decides about a call. */
module SpewCalls {
  import opened Text
  import opened SpewPipeline
  import LogPipeline

  // ---------- nothing is lost, duplicated or reordered ----------

  /** The part of the dispatcher's batch that has still to reach a callback. */
  function Batch(d: DispatcherPc): seq<string> {
    if d.Delivering? || d.InCallback? then d.rest else []
  }

  /** What a single step of thread i pushes onto s_messages. */
  function PushedBy(i: nat, s: Sys, a: Step): seq<string> {
    if a == LoggerStep(i) && i < |s.loggers| && s.loggers[i].TestHook? && s.hook && s.loggers[i].text.Some?
    then [s.loggers[i].text.value] else []
  }

  function Pushed(s: Sys, a: Step): seq<string> {
    if a.LoggerStep? then PushedBy(a.i, s, a) else []
  }

  /** What a single step passes to which callback. */
  function DeliveredTo(s: Sys, a: Step): seq<(nat, string)> {
    if a == DispatcherStep && s.dispatcher.Delivering? && s.dispatcher.callback.Some? && s.dispatcher.rest != []
    then [(s.dispatcher.callback.value, s.dispatcher.rest[0])] else []
  }

  function Delivered(s: Sys, a: Step): seq<string> {
    if DeliveredTo(s, a) == [] then [] else [DeliveredTo(s, a)[0].1]
  }

  function AllPushed(s: Sys, run: seq<Step>): seq<string>
    requires Possible(s, run)
    decreases |run|
  {
    if run == [] then [] else Pushed(s, run[0]) + AllPushed(Do(s, run[0]), run[1..])
  }

  function AllDelivered(s: Sys, run: seq<Step>): seq<string>
    requires Possible(s, run)
    decreases |run|
  {
    if run == [] then [] else Delivered(s, run[0]) + AllDelivered(Do(s, run[0]), run[1..])
  }

  /** The run contains no new start. */
  predicate NoStart(s: Sys, run: seq<Step>)
    requires Possible(s, run)
    decreases |run|
  {
    run == [] || (!(s.stop && !Do(s, run[0]).stop) && NoStart(Do(s, run[0]), run[1..]))
  }

  /** What one step does to the pending messages: pushed at the end, delivered from the front. */
  predicate Conserves(s: Sys, t: Sys, pushed: seq<string>, delivered: seq<string>) {
    if t.stop then delivered + Batch(t.dispatcher) == Batch(s.dispatcher)
    else delivered + (Batch(t.dispatcher) + t.messages) == Batch(s.dispatcher) + s.messages + pushed
  }

  lemma LoggerConserves(s: Sys, i: nat)
    requires i < |s.loggers| && LoggerEnabled(s, s.loggers[i])
    ensures Conserves(s, DoLogger(s, i), Pushed(s, LoggerStep(i)), [])
  {
    LogPipeline.Associative(Batch(s.dispatcher), s.messages, Pushed(s, LoggerStep(i)));
  }

  lemma DispatcherConserves(s: Sys)
    requires Inv(s) && DispatcherEnabled(s)
    ensures Conserves(s, DoDispatcher(s), [], Delivered(s, DispatcherStep))
  {
    if s.dispatcher.Delivering? && s.dispatcher.rest != [] {
      assert s.dispatcher.rest == [s.dispatcher.rest[0]] + s.dispatcher.rest[1..];
    }
  }

  lemma StepConserves(s: Sys, a: Step)
    requires Inv(s) && Enabled(s, a) && !(s.stop && !Do(s, a).stop)
    ensures Conserves(s, Do(s, a), Pushed(s, a), Delivered(s, a))
  {
    match a
    case LoggerStep(i) => LoggerConserves(s, i);
    case DispatcherStep => DispatcherConserves(s);
    case _ =>
  }

  /** Once told to stop, the dispatcher delivers exactly the rest of its batch. */
  lemma {:induction false} DrainedInOrder(s: Sys, run: seq<Step>)
    requires Inv(s) && s.stop && Possible(s, run) && NoStart(s, run)
    ensures AllDelivered(s, run) + Batch(Run(s, run).dispatcher) == Batch(s.dispatcher)
    ensures Run(s, run).stop
    decreases |run|
  {
    if run != [] {
      var t := Do(s, run[0]);
      StepConserves(s, run[0]);
      StepKeepsInv(s, run[0]);
      DrainedInOrder(t, run[1..]);
      LogPipeline.Associative(Delivered(s, run[0]), AllDelivered(t, run[1..]), Batch(Run(s, run).dispatcher));
    }
  }

  /** Main result: over any run before the next start, what was delivered, the rest of the batch and the queue
      are what was pending followed by everything pushed; after a stop, what was and will be delivered is an
      initial part of that. */
  lemma {:induction false} NothingLostDuplicatedOrReordered(s: Sys, run: seq<Step>)
    requires Inv(s) && !s.stop && Possible(s, run) && NoStart(s, run)
    ensures !Run(s, run).stop ==>
              AllDelivered(s, run) + Batch(Run(s, run).dispatcher) + Run(s, run).messages
              == Batch(s.dispatcher) + s.messages + AllPushed(s, run)
    ensures AllDelivered(s, run) + Batch(Run(s, run).dispatcher)
            <= Batch(s.dispatcher) + s.messages + AllPushed(s, run)
    decreases |run|
  {
    if run != [] {
      var t, end := Do(s, run[0]), Run(s, run);
      var rest := run[1..];
      StepConserves(s, run[0]);
      StepKeepsInv(s, run[0]);
      if t.stop {
        DrainedInOrder(t, rest);
        LogPipeline.GluePrefix(Delivered(s, run[0]), AllDelivered(t, rest), Batch(end.dispatcher), Batch(t.dispatcher),
                               Batch(s.dispatcher), s.messages, Pushed(s, run[0]) + AllPushed(t, rest));
      } else {
        NothingLostDuplicatedOrReordered(t, rest);
        LogPipeline.Glue(Delivered(s, run[0]), AllDelivered(t, rest), Batch(end.dispatcher), end.messages,
                         Batch(t.dispatcher) + t.messages, AllPushed(t, rest),
                         Batch(s.dispatcher) + s.messages, Pushed(s, run[0]));
      }
    }
  }

  // ---------- what a Log call comes to ----------

  function AllPushedBy(i: nat, s: Sys, run: seq<Step>): seq<string>
    requires Possible(s, run)
    decreases |run|
  {
    if run == [] then [] else PushedBy(i, s, run[0]) + AllPushedBy(i, Do(s, run[0]), run[1..])
  }

  /** A step of thread i that calls the original function. */
  function HandedOnBy(i: nat, s: Sys, a: Step): nat {
    if a == LoggerStep(i) && i < |s.loggers| && (s.loggers[i].EarlyReturn? || s.loggers[i].Chaining?) then 1 else 0
  }

  function AllHandedOnBy(i: nat, s: Sys, run: seq<Step>): nat
    requires Possible(s, run)
    decreases |run|
  {
    if run == [] then 0 else HandedOnBy(i, s, run[0]) + AllHandedOnBy(i, Do(s, run[0]), run[1..])
  }

  function OwnText(text: Option<string>): seq<string> {
    if text.Some? then [text.value] else []
  }

  predicate BeginsNoLog(i: nat, run: seq<Step>) {
    forall a :: a in run && a.BeginLog? ==> a.i != i
  }

  /** The run begins with this call of thread i, begins no other, and the call has returned at its end. */
  predicate IsCall(i: nat, text: Option<string>, s: Sys, run: seq<Step>) {
    && Possible(s, run) && run != [] && run[0] == BeginLog(i, text) && BeginsNoLog(i, run[1..])
    && i < |Run(s, run).loggers| && Run(s, run).loggers[i] == Outside
  }

  predicate HookIs(hook: bool, s: Sys, run: seq<Step>)
    requires Possible(s, run)
    decreases |run|
  {
    s.hook == hook && (run == [] || HookIs(hook, Do(s, run[0]), run[1..]))
  }

  /** What the thread has still to push if the hook is active. */
  function StillToPush(pc: LoggerPc): seq<string> {
    if pc.AtQueue? || pc.TestHook? then OwnText(pc.text) else []
  }

  function StillToHandOn(pc: LoggerPc): nat {
    if pc == Outside then 0 else 1
  }

  lemma OwnStep(i: nat, s: Sys)
    requires i < |s.loggers| && LoggerEnabled(s, s.loggers[i])
    ensures var pc := DoLogger(s, i).loggers[i];
            && HandedOnBy(i, s, LoggerStep(i)) + StillToHandOn(pc) == StillToHandOn(s.loggers[i])
            && PushedBy(i, s, LoggerStep(i)) + StillToPush(pc) <= StillToPush(s.loggers[i])
            && (s.hook ==> PushedBy(i, s, LoggerStep(i)) + StillToPush(pc) == StillToPush(s.loggers[i]))
            && (!s.hook ==> PushedBy(i, s, LoggerStep(i)) == [])
  {
  }

  lemma OthersLeaveLogger(i: nat, s: Sys, a: Step)
    requires Enabled(s, a) && i < |s.loggers| && a != LoggerStep(i) && (a.BeginLog? ==> a.i != i)
    ensures i < |Do(s, a).loggers| && Do(s, a).loggers[i] == s.loggers[i]
  {
  }

  lemma StepPushes(i: nat, s: Sys, a: Step)
    requires Enabled(s, a) && i < |s.loggers| && (a.BeginLog? ==> a.i != i)
    ensures i < |Do(s, a).loggers|
    ensures HandedOnBy(i, s, a) + StillToHandOn(Do(s, a).loggers[i]) == StillToHandOn(s.loggers[i])
    ensures PushedBy(i, s, a) + StillToPush(Do(s, a).loggers[i]) <= StillToPush(s.loggers[i])
    ensures s.hook ==> PushedBy(i, s, a) + StillToPush(Do(s, a).loggers[i]) == StillToPush(s.loggers[i])
    ensures !s.hook ==> PushedBy(i, s, a) == []
  {
    if a == LoggerStep(i) {
      OwnStep(i, s);
    } else {
      OthersLeaveLogger(i, s, a);
    }
  }

  lemma {:induction false} RunHandsOn(i: nat, s: Sys, run: seq<Step>)
    requires Possible(s, run) && i < |s.loggers| && BeginsNoLog(i, run)
    ensures i < |Run(s, run).loggers|
    ensures AllHandedOnBy(i, s, run) + StillToHandOn(Run(s, run).loggers[i]) == StillToHandOn(s.loggers[i])
    ensures HookIs(false, s, run) ==> AllPushedBy(i, s, run) == []
    decreases |run|
  {
    if run != [] {
      assert run[0] in run;
      StepPushes(i, s, run[0]);
      RunHandsOn(i, Do(s, run[0]), run[1..]);
    }
  }

  lemma {:induction false} RunPushes(i: nat, s: Sys, run: seq<Step>)
    requires Possible(s, run) && i < |s.loggers| && BeginsNoLog(i, run)
    ensures i < |Run(s, run).loggers|
    ensures var left := AllPushedBy(i, s, run) + StillToPush(Run(s, run).loggers[i]);
            && left <= StillToPush(s.loggers[i])
            && (HookIs(true, s, run) ==> left == StillToPush(s.loggers[i]))
    decreases |run|
  {
    if run != [] {
      var a, t := run[0], Do(s, run[0]);
      assert a in run;
      StepPushes(i, s, a);
      RunPushes(i, t, run[1..]);
      LogPipeline.Associative(PushedBy(i, s, a), AllPushedBy(i, t, run[1..]), StillToPush(Run(s, run).loggers[i]));
    }
  }

  /** Main result: a Log call calls the original function once; it pushes its text once if the hook is active
      while it runs, nothing without a text or with the hook inactive, and never anything else. */
  lemma CallIsPushedAndHandedOn(i: nat, text: Option<string>, s: Sys, run: seq<Step>)
    requires IsCall(i, text, s, run)
    ensures AllHandedOnBy(i, s, run) == 1
    ensures AllPushedBy(i, s, run) == [] || AllPushedBy(i, s, run) == OwnText(text)
    ensures HookIs(true, Do(s, run[0]), run[1..]) ==> AllPushedBy(i, s, run) == OwnText(text)
    ensures HookIs(false, Do(s, run[0]), run[1..]) ==> AllPushedBy(i, s, run) == []
  {
    var t := Do(s, run[0]);
    RunHandsOn(i, t, run[1..]);
    RunPushes(i, t, run[1..]);
    assert AllPushedBy(i, s, run) == AllPushedBy(i, t, run[1..]);
  }

  /** How many steps a thread is away from its return. */
  function LoggerRank(pc: LoggerPc): nat {
    match pc
    case Outside => 0
    case Chaining => 1
    case EarlyReturn => 1
    case Notifying => 2
    case Unlocking => 3
    case TestHook(_) => 4
    case AtQueue(_) => 5
  }

  function ControllerRank(pc: ControllerPc): nat {
    match pc
    case Idle => 0
    case Unlock => 1
    case StopJoin => 1
    case StopNotify => 2
    case StopUnlock => 3
    case SetCallback(_) => 4
    case Entering(_) => 5
  }

  function Steps(a: Step, run: seq<Step>): nat {
    if run == [] then 0 else Steps(a, run[1..]) + One(run[0] == a)
  }

  lemma LoggerAdvances(i: nat, s: Sys)
    requires i < |s.loggers| && LoggerEnabled(s, s.loggers[i])
    ensures LoggerRank(DoLogger(s, i).loggers[i]) < LoggerRank(s.loggers[i])
  {
  }

  /** Main result: whatever else happens, a Log call takes at most five steps of its thread. */
  lemma {:induction false} CallIsShort(i: nat, s: Sys, run: seq<Step>)
    requires Possible(s, run) && i < |s.loggers| && BeginsNoLog(i, run)
    ensures i < |Run(s, run).loggers|
    ensures Steps(LoggerStep(i), run) + LoggerRank(Run(s, run).loggers[i]) <= LoggerRank(s.loggers[i]) <= 5
    decreases |run|
  {
    if run != [] {
      assert run[0] in run;
      if run[0] == LoggerStep(i) {
        LoggerAdvances(i, s);
      } else {
        OthersLeaveLogger(i, s, run[0]);
      }
      CallIsShort(i, Do(s, run[0]), run[1..]);
    }
  }

  // ---------- which callback ----------

  function AllDeliveredTo(s: Sys, run: seq<Step>): seq<(nat, string)>
    requires Possible(s, run)
    decreases |run|
  {
    if run == [] then [] else DeliveredTo(s, run[0]) + AllDeliveredTo(Do(s, run[0]), run[1..])
  }

  predicate BeginsNoSet(run: seq<Step>) {
    forall a :: a in run ==> !a.BeginSetCallback?
  }

  /** The callback the j-th of the messages still to come goes to. */
  function CallbackFor(s: Sys, j: nat): Option<nat> {
    if j < |Batch(s.dispatcher)| then s.dispatcher.callback else s.callback
  }

  lemma StepKeepsCallback(s: Sys, a: Step, j: nat)
    requires Inv(s) && Enabled(s, a) && s.controller == Idle && !a.BeginSetCallback?
    ensures var t := Do(s, a);
            && t.controller == Idle && t.callback == s.callback
            && (DeliveredTo(s, a) == [] ==> CallbackFor(t, j) == CallbackFor(s, j))
            && (DeliveredTo(s, a) != [] ==>
                && |DeliveredTo(s, a)| == 1 && Some(DeliveredTo(s, a)[0].0) == CallbackFor(s, 0)
                && CallbackFor(t, j) == CallbackFor(s, j + 1))
  {
  }

  /** Main result: while no set_callback is under way, the rest of the batch goes to the callback it was taken
      with, and every message after it to the one in force. */
  lemma {:induction false} GoesToItsCallback(s: Sys, run: seq<Step>, j: nat)
    requires Inv(s) && s.controller == Idle && Possible(s, run) && BeginsNoSet(run)
    requires j < |AllDeliveredTo(s, run)|
    ensures Some(AllDeliveredTo(s, run)[j].0)
            == if j < |Batch(s.dispatcher)| then s.dispatcher.callback else s.callback
    decreases |run|
  {
    var a := run[0];
    assert a in run;
    StepKeepsInv(s, a);
    var first := |DeliveredTo(s, a)|;
    StepKeepsCallback(s, a, if j >= first then j - first else 0);
    if j >= first {
      GoesToItsCallback(Do(s, a), run[1..], j - first);
    }
  }

  /** The call set_callback(cb) is under way and has got this far. */
  predicate Setting(s: Sys, cb: Option<nat>) {
    match s.controller
    case Entering(c) => c == cb
    case SetCallback(c) => c == cb
    case _ => s.callback == cb
  }

  lemma StepKeepsSetting(s: Sys, a: Step, cb: Option<nat>)
    requires Enabled(s, a) && Setting(s, cb) && !a.BeginSetCallback?
    ensures Setting(Do(s, a), cb)
  {
  }

  lemma {:induction false} SetCallbackSets(s: Sys, cb: Option<nat>, run: seq<Step>)
    requires Inv(s) && Setting(s, cb) && Possible(s, run) && BeginsNoSet(run)
    ensures Setting(Run(s, run), cb) && Inv(Run(s, run))
    decreases |run|
  {
    if run != [] {
      assert run[0] in run;
      StepKeepsInv(s, run[0]);
      StepKeepsSetting(s, run[0], cb);
      SetCallbackSets(Do(s, run[0]), cb, run[1..]);
    }
  }

  lemma ControllerAdvances(s: Sys, a: Step)
    requires Enabled(s, a) && !a.BeginSetCallback?
    ensures ControllerRank(Do(s, a).controller) + One(a == ControllerStep) <= ControllerRank(s.controller)
  {
  }

  /** Main result: likewise a set_callback takes at most five steps of its thread. */
  lemma {:induction false} SetIsShort(s: Sys, run: seq<Step>)
    requires Possible(s, run) && BeginsNoSet(run)
    ensures Steps(ControllerStep, run) + ControllerRank(Run(s, run).controller) <= ControllerRank(s.controller) <= 5
    decreases |run|
  {
    if run != [] {
      assert run[0] in run;
      ControllerAdvances(s, run[0]);
      SetIsShort(Do(s, run[0]), run[1..]);
    }
  }

  /** A wakeup without a reason ends the wait like any other. */
  lemma SpuriousWakeupWakes(s: Sys)
    requires Enabled(s, SpuriousWakeup)
    ensures Do(s, SpuriousWakeup) == s.(dispatcher := AtLock)
  {
  }

  /** The run begins with set_callback(cb), and that call has returned at its end. */
  predicate IsSet(cb: Option<nat>, s: Sys, run: seq<Step>) {
    && Possible(s, run) && run != [] && run[0] == BeginSetCallback(cb) && BeginsNoSet(run[1..])
    && Run(s, run).controller == Idle
  }

  /** Main result: when set_callback(cb) returns, cb is the callback; the hook is active and the dispatcher up
      if it is one, and neither, with nothing queued, if it is none. */
  lemma SetCallbackDoes(cb: Option<nat>, s: Sys, run: seq<Step>)
    requires Reachable(s) && IsSet(cb, s, run)
    ensures var t := Run(s, run);
            && t.callback == cb && t.hook == cb.Some?
            && (if cb.Some? then t.dispatcher != NoThread && t.dispatcher != Exited
                else t.dispatcher == NoThread && t.messages == [])
  {
    ReachableInv(s);
    StepKeepsInv(s, run[0]);
    SetCallbackSets(Do(s, run[0]), cb, run[1..]);
  }

  predicate StopsOnly(run: seq<Step>) {
    forall a :: a in run && a.BeginSetCallback? ==> a.cb.None?
  }

  /** Stopped, with at most a redundant set_callback(nullptr) in progress. */
  predicate Quiet(s: Sys) {
    && s.stop && s.dispatcher == NoThread
    && (s.controller == Idle || s.controller == Entering(None) || s.controller == SetCallback(None)
        || s.controller == Unlock)
  }

  lemma {:induction false} RunKeepsQuiet(s: Sys, run: seq<Step>)
    requires Inv(s) && Quiet(s) && Possible(s, run) && StopsOnly(run)
    ensures Quiet(Run(s, run)) && AllDelivered(s, run) == [] && AllPushed(s, run) == []
    decreases |run|
  {
    if run != [] {
      assert run[0] in run;
      StepKeepsInv(s, run[0]);
      RunKeepsQuiet(Do(s, run[0]), run[1..]);
    }
  }

  /** Main result: after a completed stop nothing is pushed or delivered until a new callback is set. */
  lemma QuietUntilNextStart(s: Sys, run: seq<Step>)
    requires Reachable(s) && s.stop && s.controller == Idle && Possible(s, run) && StopsOnly(run)
    ensures AllDelivered(s, run) == [] && AllPushed(s, run) == [] && Run(s, run).messages == []
  {
    ReachableInv(s);
    RunKeepsQuiet(s, run);
    RunKeepsInv(s, run);
  }
}
