/** What one Log call, and one set_callback call, come to: a message logged while the adapter runs is pushed
    once, is delivered or pending ever after, and reaches the callback in the end. */
module LogCalls {
  import opened Text
  import opened LogPipeline
  import opened LogLiveness

  // ---------- what a Log call pushes ----------

  /** The text a call has for the queue: none without an echo or without a text. */
  function OwnText(call: Call): seq<string> {
    if call.echo && call.text.Some? then [call.text.value] else []
  }

  function PushedBy(i: nat, s: Sys, a: Step): seq<string> {
    if a == LoggerStep(i) then Pushed(s, a) else []
  }

  /** What thread i pushes in a run. */
  function AllPushedBy(i: nat, s: Sys, run: seq<Step>): seq<string>
    requires Possible(s, run)
    decreases |run|
  {
    if run == [] then [] else PushedBy(i, s, run[0]) + AllPushedBy(i, Do(s, run[0]), run[1..])
  }

  predicate BeginsNoLog(i: nat, run: seq<Step>) {
    forall a :: a in run && a.BeginLog? ==> a.i != i
  }

  /** The run begins with this call of thread i, begins no other, and the call has returned at its end. */
  predicate IsCall(i: nat, call: Call, s: Sys, run: seq<Step>) {
    && Possible(s, run) && run != [] && run[0] == BeginLog(i, call) && BeginsNoLog(i, run[1..])
    && IsAt(Run(s, run), i, Outside)
  }

  /** A condition on states holds in every state of a run. */
  predicate Throughout(holds: Sys -> bool, s: Sys, run: seq<Step>)
    requires Possible(s, run)
    decreases |run|
  {
    holds(s) && (run == [] || Throughout(holds, Do(s, run[0]), run[1..]))
  }

  predicate Accepting(s: Sys) {
    s.target == ThisAdapter && s.accept && !s.stop
  }

  /** What the thread still has to push if the adapter goes on accepting. */
  function StillToPush(pc: LoggerPc): seq<string> {
    match pc
    case AtForward(c) => OwnText(c)
    case ReadTarget(c) => OwnText(c)
    case ReadStop(c) => if c.text.Some? then [c.text.value] else []
    case ReadAccept(c) => if c.text.Some? then [c.text.value] else []
    case AtQueue(m) => [m]
    case Pushing(m) => [m]
    case _ => []
  }

  lemma OwnStepPushes(i: nat, s: Sys)
    requires i < |s.loggers| && LoggerEnabled(s, s.loggers[i])
    ensures var left := Pushed(s, LoggerStep(i)) + StillToPush(DoLogger(s, i).loggers[i]);
            && left <= StillToPush(s.loggers[i])
            && (Accepting(s) ==> left == StillToPush(s.loggers[i]))
  {
  }

  lemma OthersLeaveLogger(i: nat, s: Sys, a: Step)
    requires Enabled(s, a) && i < |s.loggers| && a != LoggerStep(i) && (a.BeginLog? ==> a.i != i)
    ensures IsAt(Do(s, a), i, s.loggers[i])
  {
  }

  /** One step of any thread takes from it what it pushes, and nothing is lost while the adapter accepts. */
  lemma StepPushes(i: nat, s: Sys, a: Step)
    requires Enabled(s, a) && i < |s.loggers| && (a.BeginLog? ==> a.i != i)
    ensures i < |Do(s, a).loggers|
    ensures var left := PushedBy(i, s, a) + StillToPush(Do(s, a).loggers[i]);
            && left <= StillToPush(s.loggers[i])
            && (Accepting(s) ==> left == StillToPush(s.loggers[i]))
  {
    if a == LoggerStep(i) {
      OwnStepPushes(i, s);
    } else {
      OthersLeaveLogger(i, s, a);
    }
  }

  lemma PushesAdd(first: seq<string>, rest: seq<string>, end: seq<string>, middle: seq<string>, start: seq<string>)
    requires first + middle <= start && rest + end <= middle
    ensures (first + rest) + end <= start
    ensures first + middle == start && rest + end == middle ==> (first + rest) + end == start
  {
    assert (first + rest) + end == first + (rest + end);
  }

  lemma {:induction false} RunPushes(i: nat, s: Sys, run: seq<Step>)
    requires Possible(s, run) && i < |s.loggers| && BeginsNoLog(i, run)
    ensures i < |Run(s, run).loggers|
    ensures var left := AllPushedBy(i, s, run) + StillToPush(Run(s, run).loggers[i]);
            && left <= StillToPush(s.loggers[i])
            && (Throughout(Accepting, s, run) ==> left == StillToPush(s.loggers[i]))
    decreases |run|
  {
    if run != [] {
      assert run[0] in run;
      StepPushes(i, s, run[0]);
      RunPushes(i, Do(s, run[0]), run[1..]);
      PushesAdd(PushedBy(i, s, run[0]), AllPushedBy(i, Do(s, run[0]), run[1..]),
                StillToPush(Run(s, run).loggers[i]), StillToPush(Do(s, run[0]).loggers[i]), StillToPush(s.loggers[i]));
    }
  }

  /** Main result: whatever happens meanwhile, a Log call pushes its own text once or nothing at all; with no
      echo or no text it pushes nothing. */
  lemma CallPushesAtMostItsText(i: nat, call: Call, s: Sys, run: seq<Step>)
    requires IsCall(i, call, s, run)
    ensures AllPushedBy(i, s, run) == [] || AllPushedBy(i, s, run) == OwnText(call)
  {
    var t := Do(s, run[0]);
    RunPushes(i, t, run[1..]);
    assert AllPushedBy(i, s, run) == AllPushedBy(i, t, run[1..]);
  }

  /** Main result: a call that an accepting adapter gets is pushed, whatever is queued. */
  lemma AcceptedCallIsPushed(i: nat, call: Call, s: Sys, run: seq<Step>)
    requires IsCall(i, call, s, run) && Throughout(Accepting, Do(s, run[0]), run[1..])
    ensures AllPushedBy(i, s, run) == OwnText(call)
  {
    var t := Do(s, run[0]);
    RunPushes(i, t, run[1..]);
    assert AllPushedBy(i, s, run) == AllPushedBy(i, t, run[1..]);
  }

  predicate Elsewhere(s: Sys) {
    s.target != ThisAdapter
  }

  predicate ToldToStop(s: Sys) {
    s.stop
  }

  predicate Refusing(s: Sys) {
    !s.accept
  }

  lemma {:induction false} StaysOut(i: nat, s: Sys, run: seq<Step>)
    requires Possible(s, run) && i < |s.loggers| && BeginsNoLog(i, run) && !Late(s.loggers[i])
    requires || (Throughout(Elsewhere, s, run) && !Inside(s.loggers[i]))
             || Throughout(ToldToStop, s, run)
    ensures AllPushedBy(i, s, run) == []
    decreases |run|
  {
    if run != [] {
      assert run[0] in run;
      StaysOut(i, Do(s, run[0]), run[1..]);
    }
  }

  lemma {:induction false} StaysUnqueued(i: nat, s: Sys, run: seq<Step>)
    requires Possible(s, run) && i < |s.loggers| && BeginsNoLog(i, run) && Throughout(Refusing, s, run)
    requires !s.loggers[i].AtQueue? && !s.loggers[i].Pushing?
    ensures AllPushedBy(i, s, run) == []
    decreases |run|
  {
    if run != [] {
      assert run[0] in run;
      StaysUnqueued(i, Do(s, run[0]), run[1..]);
    }
  }

  /** Main result: a call is not pushed if the proxy points elsewhere all along, or the adapter is told to stop
      all along, or refuses messages all along. */
  lemma RefusedCallIsNotPushed(i: nat, call: Call, s: Sys, run: seq<Step>)
    requires IsCall(i, call, s, run)
    requires var t := Do(s, run[0]);
             || Throughout(Elsewhere, t, run[1..]) || Throughout(ToldToStop, t, run[1..])
             || Throughout(Refusing, t, run[1..])
    ensures AllPushedBy(i, s, run) == []
  {
    var t := Do(s, run[0]);
    if Throughout(Refusing, t, run[1..]) {
      StaysUnqueued(i, t, run[1..]);
    } else {
      StaysOut(i, t, run[1..]);
    }
    assert AllPushedBy(i, s, run) == AllPushedBy(i, t, run[1..]);
  }

  lemma {:induction false} StaysElsewhere(s: Sys, run: seq<Step>)
    requires Possible(s, run) && Elsewhere(s) && s.controller == Idle
    requires forall a :: a in run ==> !a.BeginSetCallback?
    ensures Throughout(Elsewhere, s, run)
    decreases |run|
  {
    if run != [] {
      assert run[0] in run;
      StaysElsewhere(Do(s, run[0]), run[1..]);
    }
  }

  /** Once another adapter has attached, a Log call is not pushed here until set_callback is called again,
      whatever the other adapters do. */
  lemma OtherAttachTakesOver(id: nat, i: nat, call: Call, s: Sys, run: seq<Step>)
    requires s.controller == Idle && Enabled(s, OtherAttach(id)) && IsCall(i, call, Do(s, OtherAttach(id)), run)
    requires forall a :: a in run ==> !a.BeginSetCallback?
    ensures AllPushedBy(i, Do(s, OtherAttach(id)), run) == []
  {
    var t := Do(s, OtherAttach(id));
    StaysElsewhere(t, run);
    RefusedCallIsNotPushed(i, call, t, run);
  }

  /** Another adapter's attach takes the proxy, its detach unhooks that adapter and no other, and a spurious
      wakeup ends the wait. */
  lemma EnvironmentDoes(s: Sys, a: Step, id: nat)
    requires Enabled(s, a)
    ensures a == OtherAttach(id) ==> Do(s, a).target == OtherAdapter(id)
    ensures a == OtherDetach(id) ==> Do(s, a).target == if s.target == OtherAdapter(id) then Nobody else s.target
    ensures a == SpuriousWakeup ==> Working(Do(s, a).dispatcher)
  {
  }

  // ---------- and what becomes of it ----------

  lemma {:induction false} PushedByIsPushed(i: nat, s: Sys, run: seq<Step>, m: string)
    requires Possible(s, run) && m in AllPushedBy(i, s, run)
    ensures m in AllPushed(s, run)
    decreases |run|
  {
    if run != [] && m !in PushedBy(i, s, run[0]) {
      PushedByIsPushed(i, Do(s, run[0]), run[1..], m);
    }
  }

  lemma {:induction false} AcceptingNeverStarts(s: Sys, run: seq<Step>)
    requires Inv(s) && Possible(s, run) && Throughout(Accepting, s, run)
    ensures NoStart(s, run) && !Run(s, run).stop
    decreases |run|
  {
    if run != [] {
      StepKeepsInv(s, run[0]);
      AcceptingNeverStarts(Do(s, run[0]), run[1..]);
    }
  }

  /** Main result: a message logged while the adapter accepts has been passed to the callback, or is in the
      batch or in the queue, when the call returns. */
  lemma LoggedIsDeliveredOrPending(i: nat, call: Call, s: Sys, run: seq<Step>, m: string)
    requires Reachable(s) && IsCall(i, call, s, run) && Throughout(Accepting, s, run) && OwnText(call) == [m]
    ensures m in AllDelivered(s, run) + Batch(Run(s, run).dispatcher) + Run(s, run).messages
  {
    ReachableInv(s);
    AcceptingNeverStarts(s, run);
    AcceptedCallIsPushed(i, call, s, run);
    PushedByIsPushed(i, s, run, m);
    NothingLostDuplicatedOrReordered(s, run);
  }

  // ---------- every accepted message arrives ----------

  /** What waits for a callback. */
  function Pending(s: Sys): seq<string> {
    Batch(s.dispatcher) + s.messages
  }

  /** What is passed to callbacks from moment n up to moment k. */
  function DeliveredBetween(p: Play, n: nat, k: nat): seq<string>
    decreases k - n
  {
    if n >= k then [] else Delivered(p.at(n), p.step(n)) + DeliveredBetween(p, n + 1, k)
  }

  ghost predicate AcceptsFrom(p: Play, n: nat) {
    forall k: nat :: n <= k ==> Accepting(p.at(k))
  }

  /** How many steps the dispatcher is away from its next delivery. */
  function UntilDelivery(pc: DispatcherPc): nat {
    match pc
    case Delivering(rest, _) => if rest != [] then 0 else 4
    case InCallback(rest, _) => if rest != [] then 1 else 5
    case Taking => 1
    case Testing => 2
    case AtLock => 3
    case _ => 4
  }

  lemma AcceptingIsLive(s: Sys)
    requires Inv(s) && Accepting(s)
    ensures Live(s.dispatcher) && !s.controller.StartStop?
    ensures s.dispatcher == Asleep && s.messages != [] ==> LoggerNotifies(s)
  {
  }

  lemma AcceptingConserves(s: Sys, a: Step)
    requires Inv(s) && Enabled(s, a) && Accepting(s) && Accepting(Do(s, a))
    ensures Delivered(s, a) + Pending(Do(s, a)) == Pending(s) + Pushed(s, a)
  {
    AcceptingIsLive(s);
    StepConserves(s, a);
    Associative(Delivered(s, a), Batch(Do(s, a).dispatcher), Do(s, a).messages);
  }

  lemma OthersComeNoCloser(s: Sys, a: Step)
    requires Inv(s) && Enabled(s, a) && Accepting(s) && a != DispatcherStep
    ensures UntilDelivery(Do(s, a).dispatcher) <= UntilDelivery(s.dispatcher)
  {
    AcceptingIsLive(s);
  }

  lemma DispatcherComesCloser(s: Sys)
    requires Inv(s) && Accepting(s) && DispatcherEnabled(s) && Pending(s) != []
    ensures |Delivered(s, DispatcherStep)| == 1
            || (Delivered(s, DispatcherStep) == []
                && UntilDelivery(DoDispatcher(s).dispatcher) < UntilDelivery(s.dispatcher))
  {
  }

  lemma PendingOnce(p: Play, n: nat)
    requires FairPlay(p) && AcceptsFrom(p, n) && !Taken(p, DispatcherStep, n)
    ensures Delivered(p.at(n), p.step(n)) == [] && Pending(p.at(n)) <= Pending(p.at(n + 1))
    ensures UntilDelivery(p.at(n + 1).dispatcher) <= UntilDelivery(p.at(n).dispatcher)
  {
    InvAt(p, n);
    assert Goes(p, n) && Accepting(p.at(n)) && Accepting(p.at(n + 1));
    if Enabled(p.at(n), p.step(n)) {
      AcceptingConserves(p.at(n), p.step(n));
      OthersComeNoCloser(p.at(n), p.step(n));
    }
  }

  /** Until the dispatcher's next step nothing is delivered and what is pending stays so. */
  lemma {:induction false} PendingStays(p: Play, n: nat, k: nat)
    requires FairPlay(p) && AcceptsFrom(p, n) && n <= k && NotTaken(p, DispatcherStep, n, k)
    ensures DeliveredBetween(p, n, k) == [] && Pending(p.at(n)) <= Pending(p.at(k))
    ensures UntilDelivery(p.at(k).dispatcher) <= UntilDelivery(p.at(n).dispatcher)
    decreases k - n
  {
    if n < k {
      PendingOnce(p, n);
      PendingStays(p, n + 1, k);
    }
  }

  lemma DispatcherIsUp(p: Play, n: nat)
    requires FairPlay(p) && AcceptsFrom(p, n) && Pending(p.at(n)) != []
    ensures EnabledFrom(p, DispatcherStep, n)
  {
    InvAt(p, n);
    AcceptingIsLive(p.at(n));
    var awake := Wakes(p, n);
    if NotTaken(p, DispatcherStep, n, awake) {
      InvAt(p, awake);
      AcceptingIsLive(p.at(awake));
      AwakeComes(p, awake);
    } else {
      TakenSoEnabled(p, DispatcherStep, n, awake);
    }
  }

  lemma DispatcherTakes(p: Play, n: nat) returns (m: nat)
    requires FairPlay(p) && AcceptsFrom(p, n) && Pending(p.at(n)) != []
    ensures n <= m && Taken(p, DispatcherStep, m) && NotTaken(p, DispatcherStep, n, m)
  {
    forall k: nat | n <= k && NotTaken(p, DispatcherStep, n, k) ensures EnabledFrom(p, DispatcherStep, k) {
      PendingStays(p, n, k);
      DispatcherIsUp(p, k);
    }
    m := MustMove(p, DispatcherStep, n);
  }

  lemma {:induction false} DeliveredAdds(p: Play, n: nat, k: nat, m: nat)
    requires n <= k <= m
    ensures DeliveredBetween(p, n, m) == DeliveredBetween(p, n, k) + DeliveredBetween(p, k, m)
    decreases k - n
  {
    if n < k {
      DeliveredAdds(p, n + 1, k, m);
      Associative(Delivered(p.at(n), p.step(n)), DeliveredBetween(p, n + 1, k), DeliveredBetween(p, k, m));
    }
  }

  /** The dispatcher's next step delivers the first pending message, or brings its delivery closer. */
  lemma NextStepDelivers(p: Play, n: nat) returns (m: nat, d: seq<string>)
    requires FairPlay(p) && AcceptsFrom(p, n) && Pending(p.at(n)) != []
    ensures n <= m && d == DeliveredBetween(p, n, m + 1)
    ensures d == [] || d == [Pending(p.at(n))[0]]
    ensures Pending(p.at(n)) <= d + Pending(p.at(m + 1))
    ensures d == [] ==> UntilDelivery(p.at(m + 1).dispatcher) < UntilDelivery(p.at(n).dispatcher)
  {
    m := DispatcherTakes(p, n);
    PendingStays(p, n, m);
    InvAt(p, m);
    assert Goes(p, m) && Accepting(p.at(m)) && Accepting(p.at(m + 1));
    AcceptingConserves(p.at(m), DispatcherStep);
    DispatcherComesCloser(p.at(m));
    d := Delivered(p.at(m), p.step(m));
    DeliveredAdds(p, n, m, m + 1);
    assert DeliveredBetween(p, m, m + 1) == d + DeliveredBetween(p, m + 1, m + 1) == d;
    assert Pending(p.at(n))[0] == Pending(p.at(m))[0] == (d + Pending(p.at(m + 1)))[0];
  }

  lemma TakesOn(before: seq<string>, d: seq<string>, after: seq<string>, q: nat)
    requires before <= d + after && |d| <= q <= |before|
    ensures before[..q] == d + after[..q - |d|]
  {
    assert before[..q] == (d + after)[..q];
  }

  /** Main result: in every fair play in which the adapter goes on accepting, every pending message arrives,
      and the ones before it first, in their order. */
  lemma {:induction false} PendingArrives(p: Play, n: nat, q: nat) returns (m: nat)
    requires FairPlay(p) && AcceptsFrom(p, n) && q < |Pending(p.at(n))|
    ensures n <= m && DeliveredBetween(p, n, m + 1) == Pending(p.at(n))[..q + 1]
    decreases q, UntilDelivery(p.at(n).dispatcher)
  {
    var k, d := NextStepDelivers(p, n);
    m := k;
    if d == [] || q > 0 {
      m := PendingArrives(p, k + 1, q - |d|);
      DeliveredAdds(p, n, k + 1, m + 1);
      TakesOn(Pending(p.at(n)), d, Pending(p.at(k + 1)), q + 1);
    }
  }

  /** The thread gets to the push. */
  lemma {:induction false} GetsToPush(p: Play, i: nat, n: nat, text: string) returns (m: nat)
    requires FairPlay(p) && AcceptsFrom(p, n) && i < |p.at(n).loggers| && StillToPush(p.at(n).loggers[i]) == [text]
    ensures n <= m && Taken(p, LoggerStep(i), m) && IsAt(p.at(m), i, Pushing(text))
    decreases LoggerRank(p.at(n).loggers[i])
  {
    var pc := p.at(n).loggers[i];
    if pc.AtForward? {
      m := LoggerEnters(p, i, pc, n);
    } else {
      m := LoggerMoves(p, i, pc, n);
    }
    if !pc.Pushing? {
      assert Goes(p, m) && Accepting(p.at(m));
      OwnStepPushes(i, p.at(m));
      m := GetsToPush(p, i, m + 1, text);
    }
  }

  /** Main result: in every fair play in which the adapter goes on accepting, a Log call pushes its message
      behind what is pending then, and at some later moment just that has been passed to the callback. */
  lemma LoggedMessageArrives(p: Play, i: nat, call: Call, n: nat, text: string) returns (pushed: nat, m: nat)
    requires FairPlay(p) && AcceptsFrom(p, n) && Taken(p, BeginLog(i, call), n) && OwnText(call) == [text]
    ensures n < pushed < m && Taken(p, LoggerStep(i), pushed) && IsAt(p.at(pushed), i, Pushing(text))
    ensures DeliveredBetween(p, pushed + 1, m + 1) == Pending(p.at(pushed)) + [text]
  {
    assert Goes(p, n);
    pushed := GetsToPush(p, i, n + 1, text);
    assert Goes(p, pushed) && Accepting(p.at(pushed)) && Accepting(p.at(pushed + 1));
    InvAt(p, pushed);
    AcceptingConserves(p.at(pushed), LoggerStep(i));
    assert Pending(p.at(pushed + 1)) == Pending(p.at(pushed)) + [text];
    m := PendingArrives(p, pushed + 1, |Pending(p.at(pushed))|);
  }

  // ---------- which callback ----------

  /** What a single step passes to which callback. */
  function DeliveredTo(s: Sys, a: Step): seq<(nat, string)> {
    if a == DispatcherStep && s.dispatcher.Delivering? && s.dispatcher.callback.Some? && s.dispatcher.rest != []
    then [(s.dispatcher.callback.value, s.dispatcher.rest[0])] else []
  }

  function AllDeliveredTo(s: Sys, run: seq<Step>): seq<(nat, string)>
    requires Possible(s, run)
    decreases |run|
  {
    if run == [] then [] else DeliveredTo(s, run[0]) + AllDeliveredTo(Do(s, run[0]), run[1..])
  }

  predicate BeginsNoSet(run: seq<Step>) {
    forall a :: a in run ==> !a.BeginSetCallback?
  }

  lemma {:induction false} DeliveredToSame(s: Sys, run: seq<Step>)
    requires Possible(s, run)
    ensures |AllDeliveredTo(s, run)| == |AllDelivered(s, run)|
    ensures forall j :: 0 <= j < |AllDelivered(s, run)| ==> AllDeliveredTo(s, run)[j].1 == AllDelivered(s, run)[j]
    decreases |run|
  {
    if run != [] {
      DeliveredToSame(Do(s, run[0]), run[1..]);
    }
  }

  /** The callback the j-th of the messages still to come goes to. */
  function CallbackFor(s: Sys, j: nat): Option<nat> {
    if j < |Batch(s.dispatcher)| then s.dispatcher.callback else s.callback
  }

  lemma StepKeepsCallback(s: Sys, a: Step, j: nat)
    requires Inv(s) && Enabled(s, a) && s.controller == Idle && !a.BeginSetCallback?
    ensures var t := Do(s, a);
            && t.controller == Idle && t.callback == s.callback
            && (DeliveredTo(s, a) == [] ==> CallbackFor(t, j) == CallbackFor(s, j))
            && (DeliveredTo(s, a) != [] ==>
                && |DeliveredTo(s, a)| == 1 && Some(DeliveredTo(s, a)[0].0) == CallbackFor(s, 0)
                && CallbackFor(t, j) == CallbackFor(s, j + 1))
  {
  }

  /** Main result: while no set_callback is under way, the rest of the batch goes to the callback it was taken
      with, and every message after it to the one in force. */
  lemma {:induction false} GoesToItsCallback(s: Sys, run: seq<Step>, j: nat)
    requires Inv(s) && s.controller == Idle && Possible(s, run) && BeginsNoSet(run)
    requires j < |AllDeliveredTo(s, run)|
    ensures Some(AllDeliveredTo(s, run)[j].0)
            == if j < |Batch(s.dispatcher)| then s.dispatcher.callback else s.callback
    decreases |run|
  {
    var a := run[0];
    assert a in run;
    StepKeepsInv(s, a);
    var first := |DeliveredTo(s, a)|;
    StepKeepsCallback(s, a, if j >= first then j - first else 0);
    if j >= first {
      GoesToItsCallback(Do(s, a), run[1..], j - first);
    }
  }

  /** The call set_callback(cb) is under way and has got this far. */
  predicate Setting(s: Sys, cb: Option<nat>) {
    match s.controller
    case Entering(c) => c == cb
    case SetCallback(c) => c == cb
    case _ => s.callback == cb
  }

  lemma OwnStepKeepsSetting(s: Sys, cb: Option<nat>)
    requires ControllerEnabled(s) && Setting(s, cb)
    ensures Setting(DoController(s), cb)
  {
  }

  lemma OthersKeepCallback(s: Sys, a: Step)
    requires Enabled(s, a) && a != ControllerStep && !a.BeginSetCallback?
    ensures Do(s, a).controller == s.controller && Do(s, a).callback == s.callback
  {
  }

  lemma StepKeepsSetting(s: Sys, a: Step, cb: Option<nat>)
    requires Enabled(s, a) && Setting(s, cb) && !a.BeginSetCallback?
    ensures Setting(Do(s, a), cb)
  {
    if a == ControllerStep {
      OwnStepKeepsSetting(s, cb);
    } else {
      OthersKeepCallback(s, a);
    }
  }

  lemma {:induction false} SetCallbackSets(s: Sys, cb: Option<nat>, run: seq<Step>)
    requires Inv(s) && Setting(s, cb) && Possible(s, run) && BeginsNoSet(run) && Run(s, run).controller == Idle
    ensures Run(s, run).callback == cb && Inv(Run(s, run))
    decreases |run|
  {
    if run != [] {
      assert run[0] in run;
      StepKeepsInv(s, run[0]);
      StepKeepsSetting(s, run[0], cb);
      SetCallbackSets(Do(s, run[0]), cb, run[1..]);
    }
  }

  /** On its way to attach, or attached. */
  predicate Attaching(s: Sys) {
    match s.controller
    case Idle => s.target == ThisAdapter
    case Unlock(attach) => attach
    case AtProxy(attach) => attach
    case Retarget(attach) => attach
    case _ => s.controller.Entering? || s.controller.SetCallback? || s.controller.StartAccept?
              || s.controller.StartStop? || s.controller.StartThread?
  }

  predicate NobodyElseAttaches(run: seq<Step>) {
    forall a :: a in run ==> !a.OtherAttach?
  }

  lemma {:induction false} SetCallbackAttaches(s: Sys, cb: Option<nat>, run: seq<Step>)
    requires Setting(s, cb) && cb.Some? && Attaching(s) && Possible(s, run) && BeginsNoSet(run)
    requires NobodyElseAttaches(run) && Run(s, run).controller == Idle
    ensures Run(s, run).target == ThisAdapter
    decreases |run|
  {
    if run != [] {
      assert run[0] in run;
      StepKeepsSetting(s, run[0], cb);
      SetCallbackAttaches(Do(s, run[0]), cb, run[1..]);
    }
  }

  /** The run begins with set_callback(cb), and that call has returned at its end. */
  predicate IsSet(cb: Option<nat>, s: Sys, run: seq<Step>) {
    && Possible(s, run) && run != [] && run[0] == BeginSetCallback(cb) && BeginsNoSet(run[1..])
    && Run(s, run).controller == Idle
  }

  /** Main result: when set_callback(cb) returns, cb is the callback. If it is one, the adapter runs, and it
      accepts messages unless another adapter has attached meanwhile; if it is none, the adapter is stopped and
      detached. */
  lemma SetCallbackDoes(cb: Option<nat>, s: Sys, run: seq<Step>)
    requires Reachable(s) && IsSet(cb, s, run)
    ensures var t := Run(s, run);
            && t.callback == cb
            && (if cb.Some? then Running(t) && (NobodyElseAttaches(run[1..]) ==> Accepting(t))
                else Stopped(t) && t.target != ThisAdapter)
  {
    ReachableInv(s);
    StepKeepsInv(s, run[0]);
    SetCallbackSets(Do(s, run[0]), cb, run[1..]);
    if cb.Some? && NobodyElseAttaches(run[1..]) {
      SetCallbackAttaches(Do(s, run[0]), cb, run[1..]);
    }
  }
}
