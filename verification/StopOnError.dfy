/** Pausing on errors: the dispatcher thread notices an error and stores a request, a tick on the Lua thread
    takes the request and pauses. The two threads interleave freely. The three flags the dispatcher tests,
    the store, the exchange, the pause, and each assignment of reset() and exit() are separate steps. */
module StopOnError {
  import opened Text

  /** Where handle_console_output is, from the moment an error is raised. */
  datatype Reporter = Quiet | Entered | SawAttached | SawLive | Checked

  /** Where the Lua thread is; the later stages belong to reset() and exit(). */
  datatype Lua =
    | Free
    | Taken(request: bool)                          // between the exchange and pause_now
    | ResetDisposed(pause: bool) | ResetPending(pause: bool) | ResetStop(pause: bool)
    | ResetListen(pause: bool) | ResetPause(pause: bool)
    | ExitAttached | ExitPending | ExitJoin | ExitUnpause

  datatype Event = Raised | Dropped | Stored | Cleared | Took(request: bool) | Paused

  datatype State = State(
    attached: bool, disposed: bool, stopOnError: bool, pending: bool, paused: bool,
    listening: bool,        // the console adapter has a callback
    reporter: Reporter, lua: Lua, log: seq<Event>)

  const START := State(false, false, false, false, false, false, Quiet, Free, [])

  datatype Step =
    // the dispatcher thread
    | Raise
    | Dispatch
    // the Lua thread
    | TickTake
    | TickPause
    | Connect
    | ClearCache
    | SetStop(b: bool)      // init
    | SetPaused(b: bool)    // any other way to pause or resume
    | BeginReset(pause: bool)
    | BeginExit
    | LuaStep               // goes on with reset() or exit()

  predicate OfDispatcher(step: Step) {
    step.Raise? || step.Dispatch?
  }

  predicate Enabled(s: State, step: Step) {
    match step
    case Raise => s.reporter == Quiet && s.listening
    case Dispatch => s.reporter != Quiet
    case TickTake => s.lua == Free && !s.disposed
    case TickPause => s.lua.Taken?
    case Connect => s.lua == Free && !s.disposed
    case LuaStep => s.lua != Free && !s.lua.Taken? && (s.lua == ExitJoin ==> s.reporter == Quiet)
    case BeginExit => s.lua == Free && !s.disposed
    case _ => s.lua == Free
  }

  function Report(s: State): State {
    match s.reporter
    case Quiet => s
    case Entered => s.(reporter := if s.attached then SawAttached else Quiet)
    case SawAttached => s.(reporter := if s.disposed then Quiet else SawLive)
    case SawLive => s.(reporter := if s.stopOnError then Checked else Quiet)
    case Checked => s.(reporter := Quiet, pending := true)
  }

  function ReportEvent(s: State): Option<Event> {
    if s.reporter == Checked then Some(Stored) else if Report(s).reporter == Quiet then Some(Dropped) else None
  }

  /** What a step adds to the log. */
  function EventOf(s: State, step: Step): Option<Event> {
    match step
    case Raise => Some(Raised)
    case Dispatch => ReportEvent(s)
    case TickTake => Some(Took(s.pending))
    case TickPause => if s.lua.Taken? && s.lua.request && s.attached && !s.paused then Some(Paused) else None
    case Connect => Some(Cleared)
    case ClearCache => Some(Cleared)
    case LuaStep => if s.lua.ResetPending? || s.lua.ExitPending? then Some(Cleared) else None
    case _ => None
  }

  function Logged(log: seq<Event>, e: Option<Event>): seq<Event> {
    if e.Some? then log + [e.value] else log
  }

  function GoOn(s: State): State {
    match s.lua
    case Free => s
    case Taken(_) => s
    case ResetDisposed(p) => s.(disposed := false, lua := ResetPending(p))
    case ResetPending(p) => s.(pending := false, lua := ResetStop(p))
    case ResetStop(p) => s.(stopOnError := false, lua := ResetListen(p))
    case ResetListen(p) => s.(listening := true, lua := ResetPause(p))
    case ResetPause(p) => s.(paused := s.paused || p, lua := Free)
    case ExitAttached => s.(attached := false, lua := ExitPending)
    case ExitPending => s.(pending := false, lua := ExitJoin)
    case ExitJoin => s.(listening := false, lua := ExitUnpause)
    case ExitUnpause => s.(paused := false, lua := Free)
  }

  function Effect(s: State, step: Step): State {
    match step
    case Raise => s.(reporter := Entered)
    case Dispatch => Report(s)
    case TickTake => s.(pending := false, lua := Taken(s.pending))
    case TickPause => s.(lua := Free, paused := s.paused || (s.lua.Taken? && s.lua.request && s.attached))
    case Connect => s.(pending := false)
    case ClearCache => s.(pending := false)
    case SetStop(b) => s.(stopOnError := b)
    case SetPaused(b) => s.(paused := b)
    case BeginReset(p) => s.(attached := true, lua := ResetDisposed(p))
    case BeginExit => s.(disposed := true, lua := ExitAttached)
    case LuaStep => GoOn(s)
  }

  function Do(s: State, step: Step): State {
    Effect(s, step).(log := Logged(s.log, EventOf(s, step)))
  }

  /** Between two operations the Lua thread can begin any other; ticks, connections and a second exit do
      nothing once disposed. */
  lemma LuaBegins(s: State, b: bool)
    requires s.lua == Free
    ensures Enabled(s, SetStop(b)) && Enabled(s, SetPaused(b)) && Enabled(s, BeginReset(b)) && Enabled(s, ClearCache)
    ensures Enabled(s, TickTake) == Enabled(s, Connect) == Enabled(s, BeginExit) == !s.disposed
  {
  }

  /** An operation under way goes on; only the join in exit() waits, for the dispatcher, which can move. */
  lemma LuaGoesOn(s: State)
    requires s.lua != Free
    ensures Enabled(s, TickPause) || Enabled(s, LuaStep) || (s.lua == ExitJoin && Enabled(s, Dispatch))
  {
  }

  /** An error can be raised whenever the adapter has a callback and no report is under way. */
  lemma ReportGoesOn(s: State)
    requires s.listening
    ensures Enabled(s, if s.reporter == Quiet then Raise else Dispatch)
  {
  }

  predicate CanRun(s: State, run: seq<Step>)
    decreases |run|
  {
    run == [] || (Enabled(s, run[0]) && CanRun(Do(s, run[0]), run[1..]))
  }

  function Run(s: State, run: seq<Step>): State
    decreases |run|
  {
    if run == [] then s else Run(Do(s, run[0]), run[1..])
  }

  // ---------- reading the log ----------

  /** A report has been stored since the last exchange and the last clear. */
  predicate Armed(log: seq<Event>) {
    log != [] &&
    match log[|log| - 1]
    case Stored => true
    case Cleared => false
    case Took(_) => false
    case _ => Armed(log[..|log| - 1])
  }

  /** A report has been raised that has not been stored or dropped yet. */
  predicate Reporting(log: seq<Event>) {
    log != [] &&
    match log[|log| - 1]
    case Raised => true
    case Stored => false
    case Dropped => false
    case _ => Reporting(log[..|log| - 1])
  }

  predicate IsMark(e: Event) {
    e.Cleared? || e.Took? || e.Paused?
  }

  /** The last exchange, clear or tick-issued pause. */
  function LastMark(log: seq<Event>): Event
  {
    if log == [] then Cleared
    else if IsMark(log[|log| - 1]) then log[|log| - 1]
    else LastMark(log[..|log| - 1])
  }

  function Count(e: Event, log: seq<Event>): nat {
    if log == [] then 0 else Count(e, log[..|log| - 1]) + if log[|log| - 1] == e then 1 else 0
  }

  /** Reports come one after the other, and what is stored or dropped is the one report under way. */
  predicate WellReported(log: seq<Event>) {
    log == [] ||
    (var before, e := log[..|log| - 1], log[|log| - 1];
     && WellReported(before)
     && (e.Raised? ==> !Reporting(before))
     && (e.Stored? || e.Dropped? ==> Reporting(before)))
  }

  /** Every exchange returned whether a report was waiting, and every pause follows such an exchange. */
  predicate WellLogged(log: seq<Event>) {
    log == [] ||
    (var before, e := log[..|log| - 1], log[|log| - 1];
     && WellLogged(before)
     && (e.Took? ==> e.request == Armed(before))
     && (e.Paused? ==> LastMark(before) == Took(true)))
  }

  ghost predicate LogInv(s: State) {
    && WellLogged(s.log)
    && s.pending == Armed(s.log)
    && (s.lua.Taken? ==> LastMark(s.log) == Took(s.lua.request))
  }

  ghost predicate ReportInv(s: State) {
    WellReported(s.log) && Reporting(s.log) == (s.reporter != Quiet)
  }

  ghost predicate StageInv(s: State) {
    match s.lua
    case Free => true
    case Taken(_) => !s.disposed
    case ResetDisposed(_) => s.attached
    case ResetPending(_) => s.attached && !s.disposed
    case ResetStop(_) => s.attached && !s.disposed
    case ResetListen(_) => s.attached && !s.disposed && !s.stopOnError
    case ResetPause(_) => s.attached && !s.disposed && !s.stopOnError && s.listening
    case ExitAttached => s.disposed
    case ExitPending => s.disposed && !s.attached
    case ExitJoin => s.disposed && !s.attached
    case ExitUnpause => s.disposed && !s.attached && !s.listening
  }

  ghost predicate Inv(s: State) {
    LogInv(s) && ReportInv(s) && StageInv(s)
  }

  // ---------- the invariant over all runs ----------

  lemma Append(log: seq<Event>, e: Event)
    ensures Armed(log + [e]) == (if e.Stored? then true else if e.Cleared? || e.Took? then false else Armed(log))
    ensures LastMark(log + [e]) == if IsMark(e) then e else LastMark(log)
    ensures WellLogged(log + [e]) ==
              (WellLogged(log) && (e.Took? ==> e.request == Armed(log)) && (e.Paused? ==> LastMark(log) == Took(true)))
  {
    assert (log + [e])[..|log|] == log;
  }

  lemma AppendCount(log: seq<Event>, e: Event, f: Event)
    ensures Count(f, log + [e]) == Count(f, log) + One(e == f)
  {
    assert (log + [e])[..|log|] == log;
  }

  /** How an event goes with what happens to the request. */
  predicate Tells(s: State, t: State, o: Option<Event>) {
    match o
    case None => t.pending == s.pending && (t.lua.Taken? ==> t.lua == s.lua)
    case Some(Raised) => t.pending == s.pending && t.lua == s.lua
    case Some(Dropped) => t.pending == s.pending && t.lua == s.lua
    case Some(Stored) => t.pending && t.lua == s.lua
    case Some(Cleared) => !t.pending && !t.lua.Taken?
    case Some(Took(b)) => b == s.pending && !t.pending && t.lua == Taken(b)
    case Some(Paused) => t.pending == s.pending && s.lua == Taken(true) && t.lua == Free
  }

  lemma ReportTells(s: State)
    requires s.reporter != Quiet
    ensures Tells(s, Report(s), ReportEvent(s))
  {
  }

  lemma GoOnTells(s: State)
    requires !s.lua.Taken?
    ensures !GoOn(s).lua.Taken?
    ensures GoOn(s).pending == (s.pending && !s.lua.ResetPending? && !s.lua.ExitPending?)
  {
    match s.lua
    case ResetPending(_) =>
    case ExitPending =>
    case _ =>
  }

  lemma EventTells(s: State, step: Step)
    requires Enabled(s, step)
    ensures Tells(s, Effect(s, step), EventOf(s, step))
  {
    match step
    case Dispatch => ReportTells(s);
    case LuaStep => GoOnTells(s);
    case _ =>
  }

  lemma LogHolds(s: State, t: State, o: Option<Event>)
    requires LogInv(s) && Tells(s, t, o)
    ensures LogInv(t.(log := Logged(s.log, o)))
  {
    if o.Some? {
      Append(s.log, o.value);
    }
  }

  lemma LogStep(s: State, step: Step)
    requires LogInv(s) && Enabled(s, step)
    ensures LogInv(Do(s, step))
  {
    EventTells(s, step);
    LogHolds(s, Effect(s, step), EventOf(s, step));
  }

  lemma AppendReport(log: seq<Event>, e: Event)
    ensures Reporting(log + [e])
              == (if e.Raised? then true else if e.Stored? || e.Dropped? then false else Reporting(log))
    ensures WellReported(log + [e]) ==
              (WellReported(log) && (e.Raised? ==> !Reporting(log)) && (e.Stored? || e.Dropped? ==> Reporting(log)))
  {
    assert (log + [e])[..|log|] == log;
  }

  /** How an event goes with the report under way. */
  predicate Carries(s: State, t: State, o: Option<Event>) {
    match o
    case Some(Raised) => s.reporter == Quiet && t.reporter != Quiet
    case Some(Stored) => s.reporter != Quiet && t.reporter == Quiet
    case Some(Dropped) => s.reporter != Quiet && t.reporter == Quiet
    case _ => (t.reporter == Quiet) == (s.reporter == Quiet)
  }

  lemma EventCarries(s: State, step: Step)
    requires Enabled(s, step)
    ensures Carries(s, Effect(s, step), EventOf(s, step))
  {
    match step
    case Dispatch =>
    case LuaStep => assert GoOn(s).reporter == s.reporter;
    case _ =>
  }

  lemma ReportHolds(s: State, t: State, o: Option<Event>)
    requires ReportInv(s) && Carries(s, t, o)
    ensures ReportInv(t.(log := Logged(s.log, o)))
  {
    if o.Some? {
      AppendReport(s.log, o.value);
    }
  }

  lemma ReportStep(s: State, step: Step)
    requires ReportInv(s) && Enabled(s, step)
    ensures ReportInv(Do(s, step))
  {
    EventCarries(s, step);
    ReportHolds(s, Effect(s, step), EventOf(s, step));
  }

  lemma GoOnStage(s: State)
    requires StageInv(s)
    ensures StageInv(GoOn(s))
  {
  }

  lemma StageStep(s: State, step: Step)
    requires StageInv(s) && Enabled(s, step)
    ensures StageInv(Effect(s, step))
  {
    if step == LuaStep {
      GoOnStage(s);
    }
  }

  lemma StepKeepsInv(s: State, step: Step)
    requires Inv(s) && Enabled(s, step)
    ensures Inv(Do(s, step))
  {
    LogStep(s, step);
    ReportStep(s, step);
    StageStep(s, step);
  }

  lemma {:induction false} RunKeepsInv(s: State, run: seq<Step>)
    requires Inv(s) && CanRun(s, run)
    ensures Inv(Run(s, run))
    decreases |run|
  {
    if run != [] {
      StepKeepsInv(s, run[0]);
      RunKeepsInv(Do(s, run[0]), run[1..]);
    }
  }

  predicate IsReport(e: Event) {
    e.Raised? || e.Stored? || e.Dropped?
  }

  /** The pause at j follows the exchange at t, which took the report stored at k and raised at m: no other
      report came between m and k, nothing was cleared or taken between the store and the exchange, and no
      pause or clear came between the exchange and j. */
  predicate Consumes(log: seq<Event>, j: nat, t: nat, k: nat, m: nat) {
    && m < k < t < j < |log| && log[j] == Paused && log[t] == Took(true) && log[k] == Stored && log[m] == Raised
    && (forall i :: t < i < j ==> !IsMark(log[i]))
    && (forall i :: k < i < t ==> !log[i].Cleared? && !log[i].Took?)
    && (forall i :: m < i < k ==> !IsReport(log[i]))
  }

  lemma {:induction false} ArmedMeans(log: seq<Event>) returns (k: nat)
    requires Armed(log)
    ensures k < |log| && log[k] == Stored && forall i :: k < i < |log| ==> !log[i].Cleared? && !log[i].Took?
  {
    k := |log| - 1;
    if log[k] != Stored {
      k := ArmedMeans(log[..k]);
    }
  }

  lemma {:induction false} ArmedBy(log: seq<Event>, k: nat)
    requires k < |log| && log[k] == Stored && forall i :: k < i < |log| ==> !log[i].Cleared? && !log[i].Took?
    ensures Armed(log)
  {
    if k < |log| - 1 {
      ArmedBy(log[..|log| - 1], k);
    }
  }

  lemma {:induction false} ReportingMeans(log: seq<Event>) returns (m: nat)
    requires Reporting(log)
    ensures m < |log| && log[m] == Raised && forall i :: m < i < |log| ==> !IsReport(log[i])
  {
    m := |log| - 1;
    if log[m] != Raised {
      m := ReportingMeans(log[..m]);
    }
  }

  lemma {:induction false} ReportingBy(log: seq<Event>, m: nat)
    requires m < |log| && log[m] == Raised && forall i :: m < i < |log| ==> !IsReport(log[i])
    ensures Reporting(log)
  {
    if m < |log| - 1 {
      ReportingBy(log[..|log| - 1], m);
    }
  }

  lemma {:induction false} LastMarkMeans(log: seq<Event>) returns (t: nat)
    requires LastMark(log) == Took(true)
    ensures t < |log| && log[t] == Took(true) && forall i :: t < i < |log| ==> !IsMark(log[i])
  {
    t := |log| - 1;
    if !IsMark(log[t]) {
      t := LastMarkMeans(log[..t]);
    }
  }

  lemma {:induction false} WellLoggedPrefix(log: seq<Event>, n: nat)
    requires WellLogged(log) && n <= |log|
    ensures WellLogged(log[..n])
  {
    if n == |log| {
      assert log[..n] == log;
    } else {
      var before := log[..|log| - 1];
      WellLoggedPrefix(before, n);
      assert before[..n] == log[..n];
    }
  }

  lemma {:induction false} WellReportedPrefix(log: seq<Event>, n: nat)
    requires WellReported(log) && n <= |log|
    ensures WellReported(log[..n])
  {
    if n == |log| {
      assert log[..n] == log;
    } else {
      var before := log[..|log| - 1];
      WellReportedPrefix(before, n);
      assert before[..n] == log[..n];
    }
  }

  /** Every stored report has been raised, and no other report came in between. */
  lemma StoredWasRaised(log: seq<Event>, k: nat) returns (m: nat)
    requires WellReported(log) && k < |log| && log[k] == Stored
    ensures m < k && log[m] == Raised && forall i :: m < i < k ==> !IsReport(log[i])
  {
    WellReportedPrefix(log, k + 1);
    assert log[..k + 1][..k] == log[..k];
    m := ReportingMeans(log[..k]);
  }

  /** Every pause a tick issues consumes a report. */
  lemma PauseConsumes(log: seq<Event>, j: nat) returns (t: nat, k: nat, m: nat)
    requires WellLogged(log) && WellReported(log) && j < |log| && log[j] == Paused
    ensures Consumes(log, j, t, k, m)
  {
    WellLoggedPrefix(log, j + 1);
    assert log[..j + 1][..j] == log[..j];
    t := LastMarkMeans(log[..j]);
    WellLoggedPrefix(log, t + 1);
    assert log[..t + 1][..t] == log[..t];
    k := ArmedMeans(log[..t]);
    m := StoredWasRaised(log, k);
  }

  /** No report is consumed twice: a later pause takes a report that was raised after the earlier one was
      stored, and stored after the earlier pause's exchange. */
  lemma ConsumedOnce(log: seq<Event>, j: nat, t: nat, k: nat, m: nat, j': nat, t': nat, k': nat, m': nat)
    requires Consumes(log, j, t, k, m) && Consumes(log, j', t', k', m') && j < j'
    ensures m < k < m' < k' && k < t < k' && j < t'
  {
    assert IsMark(log[j]) && log[t].Took? && IsReport(log[k]);
  }

  lemma {:induction false} StoresAtMostRaises(log: seq<Event>)
    requires WellReported(log)
    ensures Count(Stored, log) + One(Reporting(log)) <= Count(Raised, log)
  {
    if log != [] {
      StoresAtMostRaises(log[..|log| - 1]);
    }
  }

  /** Pauses, together with the request still waiting or just taken, never outnumber the stored reports. */
  lemma {:induction false} PausesAtMostStores(log: seq<Event>)
    requires WellLogged(log)
    ensures Count(Paused, log) + One(Armed(log)) + One(LastMark(log) == Took(true)) <= Count(Stored, log)
  {
    if log != [] {
      PausesAtMostStores(log[..|log| - 1]);
    }
  }

  /** However many reports are stored, each pause needs an exchange of its own: errors between two ticks
      give one pause. */
  lemma {:induction false} PausesAtMostTakes(log: seq<Event>)
    requires WellLogged(log)
    ensures Count(Paused, log) + One(LastMark(log) == Took(true)) <= Count(Took(true), log)
  {
    if log != [] {
      PausesAtMostTakes(log[..|log| - 1]);
    }
  }

  /** Main result, over every interleaving of the two threads: each tick-issued pause consumes a report of its
      own, which an error had raised and which was stored since the last exchange, reset, connect and cache
      clear; so pauses never outnumber the errors raised, nor the ticks that found a request. */
  lemma PausesConsumeReports(run: seq<Step>)
    requires CanRun(START, run)
    ensures var log := Run(START, run).log;
            && (forall j: nat :: j < |log| && log[j] == Paused ==> exists t, k, m :: Consumes(log, j, t, k, m))
            && Count(Paused, log) <= Count(Stored, log) <= Count(Raised, log)
            && Count(Paused, log) <= Count(Took(true), log)
  {
    RunKeepsInv(START, run);
    var log := Run(START, run).log;
    forall j: nat | j < |log| && log[j] == Paused
      ensures exists t, k, m :: Consumes(log, j, t, k, m)
    {
      var t, k, m := PauseConsumes(log, j);
    }
    PausesAtMostStores(log);
    StoresAtMostRaises(log);
    PausesAtMostTakes(log);
  }

  /** p is the last clear or tick-issued pause before j. */
  predicate LastBreak(log: seq<Event>, p: nat, j: nat) {
    && p < j <= |log| && (log[p] == Cleared || log[p] == Paused)
    && forall i :: p < i < j ==> log[i] != Cleared && log[i] != Paused
  }

  lemma FreshReport(log: seq<Event>, p: nat, j: nat, t: nat, k: nat, m: nat)
    requires Consumes(log, j, t, k, m) && LastBreak(log, p, j)
    requires !Reporting(log[..p + 1]) && !Armed(log[..p + 1])
    ensures p < m
  {
    assert IsMark(log[p]);
    if k < p {
      ArmedBy(log[..p + 1], k);
    } else if m < p {
      ReportingBy(log[..p + 1], m);
    }
  }

  /** Main result, over every interleaving: a pause consumes a report raised after the previous pause and
      after the last clear, unless at that moment a report was under way or waiting. */
  lemma PauseIsFresh(run: seq<Step>, p: nat, j: nat)
    requires CanRun(START, run)
    requires var log := Run(START, run).log; j < |log| && log[j] == Paused && LastBreak(log, p, j)
    requires !Reporting(Run(START, run).log[..p + 1]) && !Armed(Run(START, run).log[..p + 1])
    ensures exists t, k, m :: p < m && Consumes(Run(START, run).log, j, t, k, m)
  {
    RunKeepsInv(START, run);
    var log := Run(START, run).log;
    var t, k, m := PauseConsumes(log, j);
    FreshReport(log, p, j, t, k, m);
  }

  // ---------- a report is stored only in a session that stops on errors ----------

  datatype Flag = IsAttached | IsLive | Stops

  predicate Shows(s: State, f: Flag) {
    match f
    case IsAttached => s.attached
    case IsLive => !s.disposed
    case Stops => s.stopOnError
  }

  /** The state after q steps of a run from the start. */
  function After(run: seq<Step>, q: nat): State
    requires q <= |run|
  {
    Run(START, run[..q])
  }

  /** A state of the run in which more than m events had been logged and the flag was set. */
  predicate Seen(run: seq<Step>, m: nat, f: Flag, q: nat) {
    q <= |run| && m < |After(run, q).log| && Shows(After(run, q), f)
  }

  /** Where the report under way was raised. */
  function RaisedAt(log: seq<Event>): (m: nat)
    requires Reporting(log)
    ensures m < |log|
    decreases |log|
  {
    if log[|log| - 1] == Raised then |log| - 1 else RaisedAt(log[..|log| - 1])
  }

  /** The flags that must have been set for the report to have come this far. */
  function Needed(r: Reporter): set<Flag> {
    match r
    case SawAttached => {IsAttached}
    case SawLive => {IsAttached, IsLive}
    case Checked => {IsAttached, IsLive, Stops}
    case _ => {}
  }

  /** Each of them has been seen set since the report under way was raised. */
  ghost predicate Trail(run: seq<Step>) {
    var s := Run(START, run);
    s.reporter != Quiet ==>
      Reporting(s.log) && forall f :: f in Needed(s.reporter) ==> exists q :: Seen(run, RaisedAt(s.log), f, q)
  }

  lemma {:induction false} OneMoreStep(s: State, run: seq<Step>, a: Step)
    requires CanRun(s, run + [a])
    ensures CanRun(s, run) && Enabled(Run(s, run), a) && Run(s, run + [a]) == Do(Run(s, run), a)
    decreases |run|
  {
    if run == [] {
      assert [] + [a] == [a];
    } else {
      assert (run + [a])[1..] == run[1..] + [a];
      OneMoreStep(Do(s, run[0]), run[1..], a);
    }
  }

  /** What was seen in a run has been seen in a longer one. */
  lemma SeenLonger(run: seq<Step>, a: Step, m: nat, f: Flag, q: nat)
    requires Seen(run, m, f, q)
    ensures Seen(run + [a], m, f, q)
  {
    assert (run + [a])[..q] == run[..q];
  }

  lemma {:induction false} RaisedAtMeans(log: seq<Event>, m: nat)
    requires m < |log| && log[m] == Raised && forall i :: m < i < |log| ==> !IsReport(log[i])
    ensures Reporting(log) && RaisedAt(log) == m
  {
    if m < |log| - 1 {
      RaisedAtMeans(log[..|log| - 1], m);
    }
  }

  /** A step that is not about the report leaves it where it is. */
  lemma OthersLogNoReport(s: State, a: Step)
    requires !OfDispatcher(a)
    ensures EventOf(s, a).Some? ==> !IsReport(EventOf(s, a).value)
  {
  }

  lemma GoOnKeepsReporter(s: State)
    ensures GoOn(s).reporter == s.reporter
  {
  }

  lemma OthersKeepReport(s: State, a: Step)
    requires !OfDispatcher(a)
    ensures Do(s, a).reporter == s.reporter
    ensures EventOf(s, a).Some? ==> !IsReport(EventOf(s, a).value)
  {
    OthersLogNoReport(s, a);
    if a == LuaStep {
      GoOnKeepsReporter(s);
    }
  }

  lemma OthersKeepRaise(log: seq<Event>, o: Option<Event>)
    requires Reporting(log) && (o.Some? ==> !IsReport(o.value))
    ensures Reporting(Logged(log, o)) && RaisedAt(Logged(log, o)) == RaisedAt(log)
  {
    if o.Some? {
      assert (log + [o.value])[..|log|] == log;
    }
  }

  /** The dispatcher goes one stage further only past a flag that is set. */
  lemma DispatchPassesFlag(s: State) returns (f: Flag)
    requires s.reporter != Quiet && Do(s, Dispatch).reporter != Quiet
    ensures Shows(s, f) && Needed(Do(s, Dispatch).reporter) <= Needed(s.reporter) + {f}
    ensures Do(s, Dispatch).log == s.log
  {
    f := match s.reporter
         case Entered => IsAttached
         case SawAttached => IsLive
         case _ => Stops;
  }

  lemma TrailOfRaise(run: seq<Step>)
    requires CanRun(START, run + [Raise])
    ensures Trail(run + [Raise])
  {
    OneMoreStep(START, run, Raise);
  }

  lemma TrailOfDispatch(run: seq<Step>)
    requires CanRun(START, run + [Dispatch]) && Trail(run)
    ensures Trail(run + [Dispatch])
  {
    OneMoreStep(START, run, Dispatch);
    var s := Run(START, run);
    var t := Do(s, Dispatch);
    if t.reporter != Quiet {
      var passed := DispatchPassesFlag(s);
      var m := RaisedAt(s.log);
      assert run[..|run|] == run;
      assert Seen(run, m, passed, |run|);
      forall f | f in Needed(t.reporter) ensures exists q :: Seen(run + [Dispatch], m, f, q) {
        var q :| Seen(run, m, f, q);
        SeenLonger(run, Dispatch, m, f, q);
      }
    }
  }

  lemma TrailOfOthers(run: seq<Step>, a: Step)
    requires CanRun(START, run + [a]) && Trail(run) && !OfDispatcher(a)
    ensures Trail(run + [a])
  {
    OneMoreStep(START, run, a);
    var s := Run(START, run);
    OthersKeepReport(s, a);
    if s.reporter != Quiet {
      OthersKeepRaise(s.log, EventOf(s, a));
      var m := RaisedAt(s.log);
      forall f | f in Needed(s.reporter) ensures exists q :: Seen(run + [a], m, f, q) {
        var q :| Seen(run, m, f, q);
        SeenLonger(run, a, m, f, q);
      }
    }
  }

  lemma {:induction false} RunLeavesTrail(run: seq<Step>)
    requires CanRun(START, run)
    ensures Trail(run)
    decreases |run|
  {
    if run != [] {
      var before, a := run[..|run| - 1], run[|run| - 1];
      assert run == before + [a];
      OneMoreStep(START, before, a);
      RunLeavesTrail(before);
      match a
      case Raise => TrailOfRaise(before);
      case Dispatch => TrailOfDispatch(before);
      case _ => TrailOfOthers(before, a);
    }
  }

  /** The step that logged event k. */
  lemma {:induction false} Origin(run: seq<Step>, k: nat) returns (q: nat)
    requires CanRun(START, run) && k < |Run(START, run).log|
    ensures q < |run| && CanRun(START, run[..q]) && After(run, q).log == Run(START, run).log[..k]
    ensures EventOf(After(run, q), run[q]) == Some(Run(START, run).log[k])
    decreases |run|
  {
    var before, a := run[..|run| - 1], run[|run| - 1];
    assert run == before + [a];
    OneMoreStep(START, before, a);
    var s := Run(START, before);
    if k < |s.log| {
      q := Origin(before, k);
      assert run[..q] == before[..q];
    } else {
      q := |before|;
    }
  }

  lemma {:induction false} LogGrows(s: State, run: seq<Step>, q: nat)
    requires q <= |run|
    ensures |Run(s, run[..q]).log| <= |Run(s, run).log|
    decreases |run|
  {
    if run == [] {
      assert run[..q] == run;
    } else if q == 0 {
      LogGrows(Do(s, run[0]), run[1..], 0);
      assert run[1..][..0] == [] == run[..0];
    } else {
      LogGrows(Do(s, run[0]), run[1..], q - 1);
      assert run[..q][1..] == run[1..][..q - 1];
    }
  }

  /** Before a store every flag has been seen. */
  lemma SeenBefore(run: seq<Step>, f: Flag) returns (p: nat)
    requires CanRun(START, run) && Run(START, run).reporter == Checked
    ensures Reporting(Run(START, run).log)
    ensures Seen(run, RaisedAt(Run(START, run).log), f, p) && |After(run, p).log| <= |Run(START, run).log|
  {
    RunLeavesTrail(run);
    assert f in Needed(Checked);
    p :| Seen(run, RaisedAt(Run(START, run).log), f, p);
    LogGrows(START, run, p);
  }

  /** Main result, over every run: between the raise of a report and its store, the server has been attached,
      live and stopping on errors, each in some state of the run. */
  lemma StoredUnderFlags(run: seq<Step>, m: nat, k: nat, f: Flag)
    requires CanRun(START, run) && m < k < |Run(START, run).log|
    requires var log := Run(START, run).log;
             log[m] == Raised && log[k] == Stored && forall i :: m < i < k ==> !IsReport(log[i])
    ensures exists q :: Seen(run, m, f, q) && |After(run, q).log| <= k
  {
    var q := Origin(run, k);
    var s := After(run, q);
    RaisedAtMeans(s.log, m);
    assert s.reporter == Checked;
    var p := SeenBefore(run[..q], f);
    assert run[..q][..p] == run[..p];
    assert Seen(run, m, f, p);
  }

  /** So a pause, too, needs all three between the raise and the store of the report it consumes. */
  lemma PauseUnderFlags(run: seq<Step>, j: nat, t: nat, k: nat, m: nat, f: Flag)
    requires CanRun(START, run) && Consumes(Run(START, run).log, j, t, k, m)
    ensures exists q :: Seen(run, m, f, q) && |After(run, q).log| <= k
  {
    StoredUnderFlags(run, m, k, f);
  }

  lemma OnlySetStopSets(s: State, a: Step)
    requires !s.stopOnError && a != SetStop(true)
    ensures !Effect(s, a).stopOnError
  {
    match a
    case LuaStep => assert !GoOn(s).stopOnError;
    case Dispatch => assert !Report(s).stopOnError;
    case _ =>
  }

  lemma {:induction false} NeverStops(s: State, run: seq<Step>)
    requires !s.stopOnError && SetStop(true) !in run
    ensures !Run(s, run).stopOnError
    decreases |run|
  {
    if run != [] {
      OnlySetStopSets(s, run[0]);
      NeverStops(Do(s, run[0]), run[1..]);
    }
  }

  lemma NoStopNoStore(run: seq<Step>, k: nat)
    requires CanRun(START, run) && SetStop(true) !in run && k < |Run(START, run).log|
    ensures Run(START, run).log[k] != Stored
  {
    RunKeepsInv(START, run);
    if Run(START, run).log[k] == Stored {
      var m := StoredWasRaised(Run(START, run).log, k);
      StoredUnderFlags(run, m, k, Stops);
      var q: nat :| Seen(run, m, Stops, q);
      NeverStops(START, run[..q]);
    }
  }

  /** Main result: a run in which stop-on-error is never set stores nothing and pauses nothing. */
  lemma NoStopNoPause(run: seq<Step>)
    requires CanRun(START, run) && SetStop(true) !in run
    ensures Stored !in Run(START, run).log && Paused !in Run(START, run).log
  {
    RunKeepsInv(START, run);
    var log := Run(START, run).log;
    if Stored in log {
      var k :| 0 <= k < |log| && log[k] == Stored;
      NoStopNoStore(run, k);
    }
    if Paused in log {
      var j :| 0 <= j < |log| && log[j] == Paused;
      var t, k, m := PauseConsumes(log, j);
      NoStopNoStore(run, k);
    }
  }

  /** The three flags stay set all along the run, and no other report is raised. */
  predicate StaysOn(s: State, run: seq<Step>)
    decreases |run|
  {
    && s.attached && !s.disposed && s.stopOnError
    && (run == [] || (run[0] != Raise && StaysOn(Do(s, run[0]), run[1..])))
  }

  lemma CountsAfter(log: seq<Event>, o: Option<Event>)
    ensures Count(Stored, Logged(log, o)) == Count(Stored, log) + One(o == Some(Stored))
    ensures Count(Dropped, Logged(log, o)) == Count(Dropped, log) + One(o == Some(Dropped))
  {
    if o.Some? {
      AppendCount(log, o.value, Stored);
      AppendCount(log, o.value, Dropped);
    }
  }

  lemma {:induction false} NothingMore(s: State, run: seq<Step>)
    requires CanRun(s, run) && StaysOn(s, run) && s.reporter == Quiet
    ensures Count(Stored, Run(s, run).log) == Count(Stored, s.log)
    ensures Count(Dropped, Run(s, run).log) == Count(Dropped, s.log)
    decreases |run|
  {
    if run != [] {
      OthersKeepReport(s, run[0]);
      CountsAfter(s.log, EventOf(s, run[0]));
      NothingMore(Do(s, run[0]), run[1..]);
    }
  }

  /** Main result: a report that is finished while the flags stay set is stored, and never dropped. */
  lemma {:induction false} ReportIsStored(s: State, run: seq<Step>)
    requires CanRun(s, run) && StaysOn(s, run) && s.reporter != Quiet && Run(s, run).reporter == Quiet
    ensures var t := Run(s, run); Count(Stored, t.log) == Count(Stored, s.log) + 1
    ensures var t := Run(s, run); Count(Dropped, t.log) == Count(Dropped, s.log)
    decreases |run|
  {
    var a := run[0];
    CountsAfter(s.log, EventOf(s, a));
    if a == Dispatch && s.reporter == Checked {
      NothingMore(Do(s, a), run[1..]);
    } else {
      if a != Dispatch {
        OthersKeepReport(s, a);
      }
      ReportIsStored(Do(s, a), run[1..]);
    }
  }

  // ---------- the dispatcher thread never pauses, and a stored report is not lost ----------

  predicate AllOfDispatcher(run: seq<Step>) {
    forall i :: 0 <= i < |run| ==> OfDispatcher(run[i])
  }

  predicate SameSession(s: State, t: State) {
    && t.paused == s.paused && t.attached == s.attached && t.disposed == s.disposed
    && t.stopOnError == s.stopOnError && t.listening == s.listening && t.lua == s.lua
    && (s.pending ==> t.pending)
  }

  predicate OnlyReports(s: State, t: State) {
    SameSession(s, t) && Count(Paused, t.log) == Count(Paused, s.log)
  }

  lemma ReportIsSameSession(s: State)
    ensures SameSession(s, Report(s))
  {
  }

  lemma LoggedPauses(log: seq<Event>, o: Option<Event>)
    requires o != Some(Paused)
    ensures Count(Paused, Logged(log, o)) == Count(Paused, log)
  {
    if o.Some? {
      AppendCount(log, o.value, Paused);
    }
  }

  lemma DispatcherStepOnlyReports(s: State, step: Step)
    requires Enabled(s, step) && OfDispatcher(step)
    ensures OnlyReports(s, Do(s, step))
  {
    ReportIsSameSession(s);
    LoggedPauses(s.log, EventOf(s, step));
  }

  /** Whatever the dispatcher thread does, the debugger and the session flags stay as they are and a waiting
      request stays. */
  lemma {:induction false} DispatcherOnlyReports(s: State, run: seq<Step>)
    requires CanRun(s, run) && AllOfDispatcher(run)
    ensures OnlyReports(s, Run(s, run))
    decreases |run|
  {
    if run != [] {
      DispatcherStepOnlyReports(s, run[0]);
      DispatcherOnlyReports(Do(s, run[0]), run[1..]);
    }
  }

  /** With a request waiting in a live, attached, running session, the next tick pauses, whatever the
      dispatcher thread does before its exchange and between exchange and pause. */
  lemma NextTickPauses(s: State, before: seq<Step>, between: seq<Step>)
    requires s.pending && s.attached && !s.disposed && !s.paused && s.lua == Free
    requires AllOfDispatcher(before) && AllOfDispatcher(between) && CanRun(s, before)
    requires CanRun(Do(Run(s, before), TickTake), between)
    ensures var t := Do(Run(s, before), TickTake);
            var u := Do(Run(t, between), TickPause);
            u.paused && u.log == Run(t, between).log + [Paused]
  {
    DispatcherOnlyReports(s, before);
    DispatcherOnlyReports(Do(Run(s, before), TickTake), between);
  }

  // ---------- what reset() and exit() do ----------

  /** How many steps of its own an operation is away from its end. */
  function LuaRank(lua: Lua): nat {
    match lua
    case Free => 0
    case Taken(_) => 1
    case ResetDisposed(_) => 5
    case ResetPending(_) => 4
    case ResetStop(_) => 3
    case ResetListen(_) => 2
    case ResetPause(_) => 1
    case ExitAttached => 4
    case ExitPending => 3
    case ExitJoin => 2
    case ExitUnpause => 1
  }

  function LuaSteps(run: seq<Step>): nat {
    if run == [] then 0 else LuaSteps(run[1..]) + One(run[0] == LuaStep)
  }

  /** The Lua thread does nothing but go on. */
  predicate OnlyGoesOn(run: seq<Step>) {
    forall step :: step in run ==> OfDispatcher(step) || step == LuaStep
  }

  /** What holds when reset() returns, and before that, what it has still to pass on. */
  predicate Resetting(s: State, pause: bool) {
    match s.lua
    case Free => s.attached && !s.disposed && !s.stopOnError && s.listening && (pause ==> s.paused)
    case Taken(_) => false
    case ResetDisposed(p) => p == pause
    case ResetPending(p) => p == pause
    case ResetStop(p) => p == pause
    case ResetListen(p) => p == pause
    case ResetPause(p) => p == pause
    case _ => false
  }

  /** The same for exit(). */
  predicate Exiting(s: State) {
    match s.lua
    case Free => !s.attached && s.disposed && !s.listening && !s.paused
    case ExitAttached => true
    case ExitPending => true
    case ExitJoin => true
    case ExitUnpause => true
    case _ => false
  }

  lemma ResetGoesOn(s: State, pause: bool)
    requires StageInv(s) && Resetting(s, pause)
    ensures Resetting(GoOn(s), pause)
  {
  }

  lemma ExitGoesOn(s: State)
    requires StageInv(s) && Exiting(s)
    ensures Exiting(GoOn(s))
  {
  }

  lemma RankFalls(s: State)
    requires s.lua != Free && !s.lua.Taken?
    ensures LuaRank(GoOn(s).lua) < LuaRank(s.lua)
  {
    if s.lua.ExitAttached? || s.lua.ExitPending? || s.lua.ExitJoin? || s.lua.ExitUnpause? {
      assert LuaRank(GoOn(s).lua) < LuaRank(s.lua);
    } else if s.lua.ResetDisposed? || s.lua.ResetPending? {
      assert LuaRank(GoOn(s).lua) < LuaRank(s.lua);
    }
  }

  lemma OperationGoesOn(s: State, step: Step, pause: bool)
    requires StageInv(s) && Enabled(s, step) && (OfDispatcher(step) || step == LuaStep)
    ensures Resetting(s, pause) ==> Resetting(Do(s, step), pause)
    ensures Exiting(s) ==> Exiting(Do(s, step))
    ensures LuaRank(Do(s, step).lua) + One(step == LuaStep) <= LuaRank(s.lua)
  {
    if step == LuaStep {
      RankFalls(s);
      if Resetting(s, pause) {
        ResetGoesOn(s, pause);
      }
      if Exiting(s) {
        ExitGoesOn(s);
      }
    } else {
      ReportIsSameSession(s);
    }
  }

  lemma {:induction false} OperationEnds(s: State, run: seq<Step>, pause: bool)
    requires StageInv(s) && CanRun(s, run) && OnlyGoesOn(run)
    ensures Resetting(s, pause) ==> Resetting(Run(s, run), pause)
    ensures Exiting(s) ==> Exiting(Run(s, run))
    ensures LuaSteps(run) + LuaRank(Run(s, run).lua) <= LuaRank(s.lua)
    decreases |run|
  {
    if run != [] {
      assert run[0] in run;
      OperationGoesOn(s, run[0], pause);
      StageStep(s, run[0]);
      OperationEnds(Do(s, run[0]), run[1..], pause);
    }
  }

  /** Main result: whatever the dispatcher does meanwhile, reset() takes at most five more steps and ends
      attached, live, listening, with stop-on-error off, and paused if that was asked for. */
  lemma ResetDoes(s: State, pause: bool, run: seq<Step>)
    requires StageInv(s) && Enabled(s, BeginReset(pause))
    requires var t := Do(s, BeginReset(pause)); CanRun(t, run) && OnlyGoesOn(run)
    ensures LuaSteps(run) <= 5
    ensures var t := Run(Do(s, BeginReset(pause)), run);
            t.lua == Free ==>
              t.attached && !t.disposed && !t.stopOnError && t.listening && (pause ==> t.paused)
  {
    StageStep(s, BeginReset(pause));
    OperationEnds(Do(s, BeginReset(pause)), run, pause);
  }

  /** Main result: likewise exit() takes at most four more steps and ends detached, disposed, deaf and
      running. */
  lemma ExitDoes(s: State, run: seq<Step>)
    requires StageInv(s) && Enabled(s, BeginExit)
    requires var t := Do(s, BeginExit); CanRun(t, run) && OnlyGoesOn(run)
    ensures LuaSteps(run) <= 4
    ensures var t := Run(Do(s, BeginExit), run);
            t.lua == Free ==> !t.attached && t.disposed && !t.listening && !t.paused
  {
    StageStep(s, BeginExit);
    OperationEnds(Do(s, BeginExit), run, false);
  }

  // ---------- reports that straddle a clear ----------

  predicate Unprovoked(e: Option<Event>) {
    e != Some(Raised) && e != Some(Cleared)
  }

  /** The run issues a pause, though no error is raised and nothing is cleared on the way. */
  predicate Stale(s: State, run: seq<Step>)
    decreases |run|
  {
    && run != [] && Enabled(s, run[0])
    && Unprovoked(EventOf(s, run[0]))
    && (EventOf(s, run[0]) == Some(Paused) || Stale(Do(s, run[0]), run[1..]))
  }

  /** The Lua thread is between two operations, or has just cleared the request in reset or exit. */
  predicate Between(s: State) {
    s.lua == Free || s.lua.ResetStop? || s.lua == ExitJoin
  }

  /** A report that has been raised is under way or waits in the pending flag, in a live, attached session. */
  predicate Straddles(s: State) {
    s.attached && !s.disposed && (s.reporter != Quiet || s.pending)
  }

  /** States from which a pause needs a new error or passes a clear first. */
  ghost predicate Harmless(s: State) {
    || s.lua.ResetDisposed? || s.lua.ResetPending? || s.lua == ExitAttached || s.lua == ExitPending
    || !s.attached || s.disposed
    || (s.reporter == Quiet && !s.pending && (s.lua.Taken? ==> !s.lua.request))
  }

  lemma GoOnHarmless(s: State)
    requires StageInv(s) && Harmless(s) && !s.lua.ResetPending? && s.lua != ExitPending
    ensures Harmless(GoOn(s))
  {
  }

  lemma HarmlessStep(s: State, step: Step)
    requires Inv(s) && Harmless(s) && Enabled(s, step)
    requires Unprovoked(EventOf(s, step))
    ensures Harmless(Effect(s, step)) && EventOf(s, step) != Some(Paused)
  {
    match step
    case Dispatch =>
    case LuaStep => GoOnHarmless(s);
    case _ =>
  }

  lemma {:induction false} HarmlessNeverStale(s: State, run: seq<Step>)
    requires Inv(s) && Harmless(s)
    ensures !Stale(s, run)
    decreases |run|
  {
    if run != [] && Enabled(s, run[0]) {
      if Unprovoked(EventOf(s, run[0])) {
        StepKeepsInv(s, run[0]);
        HarmlessStep(s, run[0]);
        HarmlessNeverStale(Do(s, run[0]), run[1..]);
      }
    }
  }

  function ReportLeft(r: Reporter): nat {
    match r
    case Quiet => 0
    case Entered => 4
    case SawAttached => 3
    case SawLive => 2
    case Checked => 1
  }

  function ResetLeft(l: Lua): nat {
    match l
    case ResetStop(_) => 3
    case ResetListen(_) => 2
    case ResetPause(_) => 1
    case _ => 0
  }

  lemma Before(s: State, step: Step, run: seq<Step>)
    requires Enabled(s, step) && Unprovoked(EventOf(s, step))
    requires Stale(Do(s, step), run)
    ensures Stale(s, [step] + run)
  {
    assert ([step] + run)[1..] == run;
  }

  /** The next thing to do on the way from a straddling report to a pause. */
  function Onward(s: State): Step {
    if s.lua != Free then LuaStep
    else if !s.stopOnError then SetStop(true)
    else if s.reporter != Quiet then Dispatch
    else SetPaused(false)
  }

  /** A straddling report can still be stored and pause the debugger. */
  lemma {:induction false} StraddlingPauses(s: State) returns (run: seq<Step>)
    requires s.attached && !s.disposed && (s.reporter != Quiet || s.pending)
    requires s.lua == Free || s.lua.ResetStop? || s.lua.ResetListen? || s.lua.ResetPause?
    ensures Stale(s, run)
    decreases ResetLeft(s.lua), ReportLeft(s.reporter), !s.stopOnError, s.paused
  {
    if s.lua == Free && s.stopOnError && s.reporter == Quiet && !s.paused {
      assert EventOf(Do(s, TickTake), TickPause) == Some(Paused);
      assert Stale(Do(s, TickTake), [TickPause]);
      Before(s, TickTake, [TickPause]);
      run := [TickTake] + [TickPause];
    } else {
      run := StraddlingPauses(Do(s, Onward(s)));
      Before(s, Onward(s), run);
      run := [Onward(s)] + run;
    }
  }

  ghost predicate CanPauseUnprovoked(s: State) {
    exists run: seq<Step> :: Stale(s, run)
  }

  /** The exact condition: the debugger can be paused with no further error raised if and only if a report is
      under way or waiting, and the server is attached and not disposed. */
  lemma StalePauseCondition(s: State)
    requires Inv(s) && Between(s)
    ensures CanPauseUnprovoked(s) <==> Straddles(s)
  {
    if Straddles(s) {
      var run := StraddlingPauses(s);
      assert Stale(s, run);
    } else if CanPauseUnprovoked(s) {
      var run :| Stale(s, run);
      HarmlessNeverStale(s, run);
    }
  }

  /** After connect, clear_error_cache, reset or exit has cleared the request, an error raised before can still
      pause if and only if its report is under way. */
  lemma StaleAfterClear(s: State)
    requires Inv(s) && Between(s) && s.log != [] && s.log[|s.log| - 1] == Cleared
    ensures CanPauseUnprovoked(s) <==> s.attached && !s.disposed && s.reporter != Quiet
  {
    StalePauseCondition(s);
  }

  /** After a tick has paused, an error raised before can pause again if and only if its report is under way,
      or was stored between the exchange and the pause. */
  lemma StaleAfterPause(s: State)
    requires Inv(s) && s.lua == Free && s.log != [] && s.log[|s.log| - 1] == Paused
    ensures CanPauseUnprovoked(s) <==> s.attached && !s.disposed && (s.reporter != Quiet || s.pending)
  {
    StalePauseCondition(s);
  }

  const RESET: seq<Step> :=
    [BeginReset(false)] + ([LuaStep] + ([LuaStep] + ([LuaStep] + ([LuaStep] + ([LuaStep] + [])))))

  const ACTIVE := State(true, false, false, false, false, true, Quiet, Free, [Cleared])

  lemma Prepend(s: State, step: Step, run: seq<Step>)
    requires Enabled(s, step) && CanRun(Do(s, step), run)
    ensures CanRun(s, [step] + run) && Run(s, [step] + run) == Run(Do(s, step), run)
  {
    assert ([step] + run)[1..] == run;
  }

  lemma ResetStops(s1: State)
    requires s1 == ACTIVE.(listening := false, lua := ResetStop(false))
    ensures var run := [LuaStep] + ([LuaStep] + ([LuaStep] + [])); CanRun(s1, run) && Run(s1, run) == ACTIVE
  {
    var s2 := s1.(lua := ResetListen(false));
    var s3 := s2.(listening := true, lua := ResetPause(false));
    Prepend(s3, LuaStep, []);
    Prepend(s2, LuaStep, [LuaStep] + []);
    Prepend(s1, LuaStep, [LuaStep] + ([LuaStep] + []));
  }

  /** Going on with reset(): the stages from ResetPending to the end. */
  lemma ResetFinishes()
    ensures var s := ACTIVE.(listening := false, lua := ResetPending(false), log := []);
            var run := [LuaStep] + ([LuaStep] + ([LuaStep] + ([LuaStep] + [])));
            CanRun(s, run) && Run(s, run) == ACTIVE
  {
    var s := ACTIVE.(listening := false, lua := ResetPending(false), log := []);
    var s1 := s.(lua := ResetStop(false), log := [Cleared]);
    assert [] + [Cleared] == [Cleared];
    assert Do(s, LuaStep) == s1;
    ResetStops(s1);
    Prepend(s, LuaStep, [LuaStep] + ([LuaStep] + ([LuaStep] + [])));
  }

  lemma ResetActivates()
    ensures CanRun(START, RESET) && Run(START, RESET) == ACTIVE
  {
    ResetFinishes();
    var s1 := START.(attached := true, lua := ResetDisposed(false));
    var rest := [LuaStep] + ([LuaStep] + ([LuaStep] + ([LuaStep] + [])));
    Prepend(s1, LuaStep, rest);
    Prepend(START, BeginReset(false), [LuaStep] + rest);
  }

  lemma {:induction false} Concatenate(s: State, a: seq<Step>, b: seq<Step>)
    requires CanRun(s, a) && CanRun(Run(s, a), b)
    ensures CanRun(s, a + b) && Run(s, a + b) == Run(Run(s, a), b)
    decreases |a|
  {
    if a == [] {
      assert a + b == b;
    } else {
      Concatenate(Do(s, a[0]), a[1..], b);
      assert a + b == [a[0]] + (a[1..] + b);
      Prepend(s, a[0], a[1..] + b);
    }
  }

  /** An activation, an error, and a cache clear while the error is being checked: after this run the next
      tick can pause although no error was raised since the clear. */
  lemma ClearCanMissReport()
    ensures var run := RESET + [Raise, ClearCache]; var s := Run(START, run);
            CanRun(START, run) && s.log != [] && s.log[|s.log| - 1] == Cleared && Between(s) && Straddles(s)
  {
    ResetActivates();
    var t := Do(Do(ACTIVE, Raise), ClearCache);
    Prepend(Do(ACTIVE, Raise), ClearCache, []);
    Prepend(ACTIVE, Raise, [ClearCache] + []);
    assert [Raise] + ([ClearCache] + []) == [Raise, ClearCache];
    Concatenate(START, RESET, [Raise, ClearCache]);
  }

  const TAKE: seq<Step> := [Raise] + ([TickTake] + ([TickPause] + []))

  /** A first error is stored, a second one raised, and then a tick takes the first and pauses. */
  const PAUSE: seq<Step> :=
    [SetStop(true)] + ([Raise] + ([Dispatch] + ([Dispatch] + ([Dispatch] + ([Dispatch] + TAKE)))))

  lemma FirstReport(s: State, t: State)
    requires s.attached && !s.disposed && s.stopOnError && s.listening && s.reporter == Quiet
    requires t == s.(log := s.log + [Raised], reporter := Checked)
    requires CanRun(t, [Dispatch] + TAKE)
    ensures var run := [Raise] + ([Dispatch] + ([Dispatch] + ([Dispatch] + ([Dispatch] + TAKE))));
            CanRun(s, run) && Run(s, run) == Run(t, [Dispatch] + TAKE)
  {
    var rest := [Dispatch] + TAKE;
    Prepend(t.(reporter := SawLive), Dispatch, rest);
    Prepend(t.(reporter := SawAttached), Dispatch, [Dispatch] + rest);
    Prepend(t.(reporter := Entered), Dispatch, [Dispatch] + ([Dispatch] + rest));
    Prepend(s, Raise, [Dispatch] + ([Dispatch] + ([Dispatch] + rest)));
  }

  lemma SecondReport(t: State)
    requires t.attached && !t.disposed && t.listening && !t.paused && t.lua == Free && t.reporter == Checked
    ensures var run := [Dispatch] + TAKE; var s := Run(t, run);
            CanRun(t, run) && s.log != [] && s.log[|s.log| - 1] == Paused && s.lua == Free && Straddles(s)
  {
    var t1 := Do(t, Dispatch);
    var t2 := Do(t1, Raise);
    var t3 := Do(t2, TickTake);
    Prepend(t3, TickPause, []);
    Prepend(t2, TickTake, [TickPause] + []);
    Prepend(t1, Raise, [TickTake] + ([TickPause] + []));
    Prepend(t, Dispatch, TAKE);
  }

  lemma PauseCanMissReport()
    ensures var run := RESET + PAUSE; var s := Run(START, run);
            CanRun(START, run) && s.log != [] && s.log[|s.log| - 1] == Paused && s.lua == Free && Straddles(s)
  {
    ResetActivates();
    var s := ACTIVE.(stopOnError := true);
    var t := s.(log := s.log + [Raised], reporter := Checked);
    SecondReport(t);
    FirstReport(s, t);
    Prepend(ACTIVE, SetStop(true), [Raise] + ([Dispatch] + ([Dispatch] + ([Dispatch] + ([Dispatch] + TAKE)))));
    Concatenate(START, RESET, PAUSE);
  }
}
