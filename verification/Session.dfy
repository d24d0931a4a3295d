/** The debug session of basic_server: connection, pause and disposal flags, the wait for a client, and the
    reliability ledger, with requests whose handlers may run Lua that ticks the debugger again.

    Everything the environment does is given as a finite tree: a poll delivers stream events, a request
    carries what happens while its handler runs, a tick carries the polls of its wait. The stream and
    lrdb::debugger are reduced to open or closed and paused or running; sending returns a bool. */
module Session {
  import opened Text
  import Decimal

  type Id = int

  datatype ErrorCode = InvalidParams | MethodNotFound | InternalError | OtherError

  /** How a handler ends: it sends its response, or it throws before it does. */
  datatype Ending = Replies(error: Option<ErrorCode>) | Throws

  /** What a handler does to the session besides running nested activities. */
  datatype Effect = NoEffect | SetStopOnError(b: bool) | ClearErrorCache | Unpause | Pause

  datatype Handler = Handler(nested: seq<Activity>, effect: Effect, ending: Ending)

  datatype Message =
    | Garbage                                         // not JSON
    | NotRequest(id: Id)                              // JSON, but no well-formed request
    | Request(id: Id, known: bool, handler: Handler)

  datatype StreamEvent = Opened | Closed | Failed | Data(message: Message)

  /** One turn of the wait: the events its poll delivers, the time until the countdown reads the clock, and
      the time from there to the reading for the deadline. Oversleeping counts into the next turn's `busy`. */
  datatype Round = Round(events: seq<StreamEvent>, busy: nat, between: nat)

  const IDLE := Round([], 0, 0)

  datatype Activity =
    | Tick(rounds: seq<Round>, last: seq<StreamEvent>)  // the tick handler
    | PauseBegins(events: seq<StreamEvent>)             // the pause handler
    | ConsoleOutput(isError: bool)                      // handle_console_output
    | Exit                                              // exit()

  datatype Metrics = Metrics(
    connectionsOpened: nat, connectionsClosed: nat, requestsReceived: nat, responsesSent: nat,
    notificationsSent: nat, parseErrors: nat, invalidRequests: nat, invalidParamsErrors: nat,
    methodNotFoundErrors: nat, internalErrors: nat, streamErrors: nat, sendFailures: nat, waitTimeouts: nat)

  const NO_METRICS := Metrics(0, 0, 0, 0, 0, 0, 0, 0, 0, 0, 0, 0, 0)

  datatype Response = Response(id: Id, error: Option<ErrorCode>)

  // ---------- countdown lines ----------

  const COUNTDOWN_PREFIX := "[GLuaLS] pause-on-activate countdown: "
  const COUNTDOWN_SUFFIX := "s remaining..."
  const CONNECTED_ENTRY := "[GLuaLS] pause-on-activate debugger connected; staying paused for entry-stop."
  const CONNECTED_DONE := "[GLuaLS] pause-on-activate debugger connected; wait complete."
  const EXPIRED := "[GLuaLS] pause-on-activate timeout expired; continuing."

  predicate OnlySpaces(s: string) {
    forall i :: 0 <= i < |s| ==> s[i] == ' '
  }

  function Spaces(n: nat): (s: string)
    ensures OnlySpaces(s) && |s| == n
  {
    seq(n, _ => ' ')
  }

  /** The line, filled up with spaces to the width if it is narrower. */
  function PadTo(line: string, width: nat): (r: string)
    ensures |r| == (if |line| < width then width else |line|) && line <= r && OnlySpaces(r[|line|..])
  {
    if |line| < width then line + Spaces(width - |line|) else line
  }

  function CountdownText(seconds: nat): string {
    COUNTDOWN_PREFIX + Decimal.Digits(seconds) + COUNTDOWN_SUFFIX
  }

  /** Whole seconds left, never negative. */
  function RemainingSeconds(timeoutMs: nat, elapsedMs: nat): nat {
    if elapsedMs >= timeoutMs then 0 else (timeoutMs - elapsedMs) / 1000
  }

  /** What the wait has printed: the value and width of the last countdown line, every line without its
      terminator, and the values shown; and as history the milliseconds gone at each of them and at the last
      reading of the clock. */
  datatype Screen = Screen(lastReported: int, lastWidth: nat, lines: seq<string>, shown: seq<nat>,
                           readAt: seq<nat>, lastRead: nat)

  const BLANK := Screen(-1, 0, [], [], [], 0)

  /** Overwrites the countdown line when its value has changed. */
  function ReportAt(screen: Screen, seconds: nat, elapsed: nat): Screen {
    var remaining := RemainingSeconds(1000 * seconds, elapsed);
    if remaining == screen.lastReported then screen.(lastRead := elapsed)
    else
      var line := PadTo(CountdownText(remaining), screen.lastWidth);
      Screen(remaining, |line|, screen.lines + [line], screen.shown + [remaining], screen.readAt + [elapsed], elapsed)
  }

  /** Replaces the countdown line by a closing message. */
  function Finish(screen: Screen, message: string): Screen {
    screen.(lines := screen.lines + [PadTo(message, screen.lastWidth)])
  }

  // What makes a countdown good, without RemainingSeconds.

  /** After e milliseconds of the timeout, v whole seconds are left. */
  predicate TimeLeft(seconds: nat, v: nat, e: nat) {
    if e <= 1000 * seconds then 1000 * v <= 1000 * seconds - e < 1000 * (v + 1) else v == 0
  }

  lemma RemainingIsTimeLeft(seconds: nat, e: nat)
    ensures TimeLeft(seconds, RemainingSeconds(1000 * seconds, e), e)
  {
  }

  lemma OneTimeLeft(seconds: nat, v: nat, w: nat, e: nat)
    requires TimeLeft(seconds, v, e) && TimeLeft(seconds, w, e)
    ensures v == w
  {
  }

  /** As time passes the seconds left do not grow. */
  lemma LaterLeavesLess(seconds: nat, v: nat, e: nat, w: nat, f: nat)
    requires TimeLeft(seconds, v, e) && TimeLeft(seconds, w, f) && e <= f
    ensures w <= v <= seconds
  {
  }

  /** The line shows v in decimal, between the fixed texts and before nothing but spaces. */
  ghost predicate ShowsSeconds(line: string, v: nat) {
    exists digits: string, pad: string ::
      && Decimal.AllDigits(digits) && Decimal.Value(digits) == v && OnlySpaces(pad)
      && line == COUNTDOWN_PREFIX + digits + COUNTDOWN_SUFFIX + pad
  }

  lemma CountdownShows(v: nat, width: nat)
    ensures ShowsSeconds(PadTo(CountdownText(v), width), v)
  {
    Decimal.ValueOfDigits(v);
    var line, text := PadTo(CountdownText(v), width), CountdownText(v);
    assert line == text + line[|text|..];
  }

  ghost predicate Falling(shown: seq<nat>, seconds: nat) {
    && (forall v :: v in shown ==> v <= seconds)
    && (forall i, j :: 0 <= i < j < |shown| ==> shown[i] > shown[j])
  }

  predicate Widening(lines: seq<string>) {
    forall i, j :: 0 <= i < j < |lines| ==> |lines[i]| <= |lines[j]|
  }

  ghost predicate Labelled(shown: seq<nat>, lines: seq<string>) {
    |shown| <= |lines| && forall i :: 0 <= i < |shown| ==> ShowsSeconds(lines[i], shown[i])
  }

  /** Each value shown was the time left when it was read, and the last one still is at the last reading. */
  predicate Timed(shown: seq<nat>, readAt: seq<nat>, lastRead: nat, seconds: nat) {
    && |readAt| == |shown|
    && (forall i :: 0 <= i < |shown| ==> TimeLeft(seconds, shown[i], readAt[i]) && readAt[i] <= lastRead)
    && (shown != [] ==> TimeLeft(seconds, shown[|shown| - 1], lastRead))
  }

  /** The values shown are the whole seconds left, they fall strictly, each line says what it shows, and every
      line is at least as wide as the one it overwrites. */
  ghost predicate GoodCountdown(screen: Screen, seconds: nat) {
    && Falling(screen.shown, seconds) && Widening(screen.lines) && Labelled(screen.shown, screen.lines)
    && Timed(screen.shown, screen.readAt, screen.lastRead, seconds)
  }

  /** The last line printed is this message, possibly padded with spaces. */
  ghost predicate Closes(screen: Screen, message: string) {
    && screen.lines != []
    && var line := screen.lines[|screen.lines| - 1];
       message <= line && OnlySpaces(line[|message|..])
  }

  /** A good countdown whose last line is still open, with at most `elapsed` milliseconds read so far. */
  ghost predicate CountingAt(screen: Screen, seconds: nat, elapsed: nat) {
    && GoodCountdown(screen, seconds) && |screen.shown| == |screen.lines| && screen.lastRead <= elapsed
    && (screen == BLANK
        || (screen.shown != []
            && screen.lastReported == screen.shown[|screen.shown| - 1]
            && screen.lastWidth == |screen.lines[|screen.lines| - 1]|))
  }

  /** What a turn that reads the clock at `read` does: it prints nothing if the time left is what the last line
      shows, and else one more line. */
  ghost predicate Reports(before: Screen, after: Screen, seconds: nat, read: nat) {
    && after.lastRead == read && after.shown != []
    && if before.shown != [] && TimeLeft(seconds, before.shown[|before.shown| - 1], read)
       then after.lines == before.lines && after.shown == before.shown && after.readAt == before.readAt
       else
         && |after.lines| == |before.lines| + 1 && before.lines <= after.lines
         && |after.shown| == |before.shown| + 1 && before.shown <= after.shown
         && after.readAt == before.readAt + [read]
  }

  /** The screen before its closing line. */
  function Reopened(screen: Screen): Screen
    requires screen.lines != []
  {
    screen.(lines := screen.lines[..|screen.lines| - 1])
  }

  /** A turn that read the clock at `read` and, when it was over, closed the countdown. */
  ghost predicate TurnedAt(before: Screen, after: Screen, over: bool, seconds: nat, read: nat) {
    (over ==> after.lines != []) && Reports(before, if over then Reopened(after) else after, seconds, read)
  }

  lemma FallsFurther(shown: seq<nat>, seconds: nat, v: nat)
    requires Falling(shown, seconds) && v <= seconds && (shown != [] ==> v < shown[|shown| - 1])
    ensures Falling(shown + [v], seconds)
  {
  }

  lemma WidensFurther(lines: seq<string>, line: string)
    requires Widening(lines) && (lines != [] ==> |lines[|lines| - 1]| <= |line|)
    ensures Widening(lines + [line])
  {
  }

  lemma TimedFurther(shown: seq<nat>, readAt: seq<nat>, lastRead: nat, seconds: nat, v: nat, read: nat)
    requires Timed(shown, readAt, lastRead, seconds) && lastRead <= read && TimeLeft(seconds, v, read)
    ensures Timed(shown + [v], readAt + [read], read, seconds)
  {
  }

  lemma LabelledFurther(shown: seq<nat>, lines: seq<string>, v: nat, line: string)
    requires Labelled(shown, lines) && |shown| == |lines| && ShowsSeconds(line, v)
    ensures Labelled(shown + [v], lines + [line])
  {
  }

  /** One more line that shows the time left. */
  lemma LineKeeps(screen: Screen, seconds: nat, read: nat, v: nat, line: string)
    requires CountingAt(screen, seconds, read) && TimeLeft(seconds, v, read) && ShowsSeconds(line, v)
    requires screen.lastWidth <= |line|
    requires screen.shown != [] ==> v < screen.shown[|screen.shown| - 1]
    ensures GoodCountdown(Screen(v, |line|, screen.lines + [line], screen.shown + [v], screen.readAt + [read], read),
                          seconds)
  {
    LaterLeavesLess(seconds, v, read, v, read);
    FallsFurther(screen.shown, seconds, v);
    WidensFurther(screen.lines, line);
    LabelledFurther(screen.shown, screen.lines, v, line);
    TimedFurther(screen.shown, screen.readAt, screen.lastRead, seconds, v, read);
  }

  lemma NewLineKeeps(screen: Screen, seconds: nat, read: nat, v: nat)
    requires CountingAt(screen, seconds, read) && v == RemainingSeconds(1000 * seconds, read)
    requires v != screen.lastReported && (screen.shown != [] ==> v <= screen.shown[|screen.shown| - 1])
    ensures CountingAt(ReportAt(screen, seconds, read), seconds, read)
  {
    RemainingIsTimeLeft(seconds, read);
    CountdownShows(v, screen.lastWidth);
    LineKeeps(screen, seconds, read, v, PadTo(CountdownText(v), screen.lastWidth));
  }

  lemma ReportKeeps(screen: Screen, seconds: nat, before: nat, read: nat)
    requires CountingAt(screen, seconds, before) && before <= read
    ensures CountingAt(ReportAt(screen, seconds, read), seconds, read)
    ensures Reports(screen, ReportAt(screen, seconds, read), seconds, read)
  {
    var v := RemainingSeconds(1000 * seconds, read);
    RemainingIsTimeLeft(seconds, read);
    if screen.shown != [] {
      LaterLeavesLess(seconds, screen.shown[|screen.shown| - 1], screen.lastRead, v, read);
      if TimeLeft(seconds, screen.shown[|screen.shown| - 1], read) {
        OneTimeLeft(seconds, v, screen.shown[|screen.shown| - 1], read);
      }
    }
    if v != screen.lastReported {
      NewLineKeeps(screen, seconds, read, v);
    }
  }

  lemma FinishKeeps(screen: Screen, seconds: nat, elapsed: nat, message: string)
    requires CountingAt(screen, seconds, elapsed)
    ensures GoodCountdown(Finish(screen, message), seconds) && Closes(Finish(screen, message), message)
  {
    WidensFurther(screen.lines, PadTo(message, screen.lastWidth));
  }

  // ---------- the book of requests ----------

  /** Requests are numbered in order of receipt. inFlight is the stack of those being handled, innermost
      last; answered holds the id each other one was answered with. */
  datatype Book = Book(received: seq<Id>, inFlight: seq<nat>, answered: map<nat, Id>)

  /** Every request is either being handled or has been answered, never both, with its own id. */
  ghost predicate OneAnswerEach(b: Book) {
    && (forall n :: n in b.answered ==> n < |b.received| && b.answered[n] == b.received[n])
    && (forall n :: 0 <= n < |b.received| ==> (n in b.answered <==> n !in b.inFlight))
    && (forall i :: 0 <= i < |b.inFlight| ==> b.inFlight[i] < |b.received|)
    && (forall i, j :: 0 <= i < j < |b.inFlight| ==> b.inFlight[i] != b.inFlight[j])
  }

  type SoundBook = b: Book | OneAnswerEach(b) witness Book([], [], map[])

  /** The same requests are being handled; receipts and answers have only been added. */
  ghost predicate Extends(b: Book, c: Book) {
    && c.inFlight == b.inFlight && b.received <= c.received
    && (forall n :: n in b.answered ==> n in c.answered && c.answered[n] == b.answered[n])
  }

  function Receive(b: Book, id: Id): Book {
    b.(received := b.received + [id], inFlight := b.inFlight + [|b.received|])
  }

  function AnswerLast(b: Book, id: Id): Book
    requires b.inFlight != []
  {
    b.(inFlight := b.inFlight[..|b.inFlight| - 1], answered := b.answered[b.inFlight[|b.inFlight| - 1] := id])
  }

  lemma ReceiveKeeps(b: Book, id: Id)
    requires OneAnswerEach(b)
    ensures OneAnswerEach(Receive(b, id))
  {
    assert |b.received| !in b.inFlight;
  }

  /** The innermost request being handled. */
  function Innermost(b: Book): nat
    requires b.inFlight != []
  {
    b.inFlight[|b.inFlight| - 1]
  }

  lemma AnswerKeeps(b: Book)
    requires OneAnswerEach(b) && b.inFlight != []
    ensures var c := AnswerLast(b, b.received[Innermost(b)]);
            OneAnswerEach(c) && |c.answered| == |b.answered| + 1
  {
    var k := |b.inFlight| - 1;
    var n := b.inFlight[k];
    assert n in b.inFlight && n !in b.answered;
    assert b.inFlight == b.inFlight[..k] + [n];
  }

  /** Request number n was received with this id and answered with it. */
  ghost predicate Answered(b: Book, n: nat, id: Id) {
    n < |b.received| && b.received[n] == id && n in b.answered && b.answered[n] == id
  }

  /** The innermost request is the one with this id. */
  ghost predicate Handling(b: Book, id: Id) {
    b.inFlight != [] && Innermost(b) < |b.received| && b.received[Innermost(b)] == id
  }

  /** Receiving a request, extending the book while it is handled, and answering it extends the book. */
  lemma HandledOne(b: Book, id: Id, c: Book)
    requires OneAnswerEach(b) && OneAnswerEach(c) && Extends(Receive(b, id), c)
    ensures Handling(c, id)
    ensures Extends(b, AnswerLast(c, id)) && Answered(AnswerLast(c, id), |b.received|, id)
  {
  }

  /** These counters never go back. */
  predicate Grows(before: Metrics, after: Metrics) {
    && before.notificationsSent <= after.notificationsSent && before.waitTimeouts <= after.waitTimeouts
    && before.connectionsOpened <= after.connectionsOpened && before.connectionsClosed <= after.connectionsClosed
  }

  predicate StartsWithRequest(events: seq<StreamEvent>) {
    events != [] && events[0].Data? && events[0].message.Request?
  }

  predicate EndsWithClient(events: seq<StreamEvent>) {
    events != [] && events[|events| - 1].Opened?
  }

  /** A client arrives in turn k of the wait. */
  predicate BringsClient(rounds: seq<Round>, k: nat) {
    k < |rounds| && EndsWithClient(rounds[k].events)
  }

  predicate ConnectedOrCounted(before: Metrics, after: Metrics) {
    before.connectionsOpened < after.connectionsOpened || before.waitTimeouts < after.waitTimeouts
  }

  class Server {
    // session flags
    var waitForConnect: bool
    var attached: bool
    var disposed: bool
    var hasActiveConnection: bool
    var pendingPause: bool
    var stopOnError: bool
    var pauseOnActivate: bool
    var pauseTimeout: nat
    var waitInitial: bool
    var luaBase: bool
    var metrics: Metrics
    // environment
    const sendResult: nat -> bool
    var sends: nat
    var open: bool
    var hooked: bool
    var paused: bool
    var pausedAtEntry: bool
    var now: nat
    // history
    ghost var accepted: nat
    ghost var suppressed: nat
    ghost var book: SoundBook
    ghost var blockingWaits: nat
    ghost var inWait: bool

    // ---------- the invariant ----------

    /** The reliability ledger. */
    ghost predicate Ledger()
      reads this
    {
      && metrics.responsesSent + |book.inFlight|
          == metrics.requestsReceived + metrics.parseErrors + metrics.invalidRequests
      && metrics.responsesSent + metrics.notificationsSent == accepted + metrics.sendFailures + suppressed
      && metrics.connectionsOpened == metrics.connectionsClosed + One(hasActiveConnection)
      && |book.received| == metrics.requestsReceived
      && metrics.responsesSent == |book.answered| + metrics.parseErrors + metrics.invalidRequests
    }

    /** Nobody waits for a client although there is none: a wait has run into its deadline. */
    ghost predicate Expired()
      reads this
    {
      !open && !waitForConnect
    }

    /** A client that has connected has ended the initial wait. Only a reset under a connected client can
        make this false. */
    ghost predicate Calm()
      reads this
    {
      open ==> !waitInitial
    }

    /** While a client is connected nobody waits for one; a disposed server has no client; an initial wait
        that is still to come has not blocked yet. */
    ghost predicate Flags()
      reads this
    {
      && (open ==> hooked && !waitForConnect && !disposed)
      && (inWait ==> Calm())
      && (hooked ==> open == hasActiveConnection)
      && (disposed ==> !hooked && !waitInitial)
      && blockingWaits <= 1 && (waitInitial && !inWait ==> blockingWaits == 0)
    }

    ghost predicate Inv()
      reads this
    {
      Ledger() && Flags()
    }

    constructor (sendResult: nat -> bool)
      ensures Inv() && metrics == NO_METRICS && book.inFlight == [] && !disposed && !open && waitForConnect
      ensures !attached && !pendingPause && !stopOnError && !pauseOnActivate && pauseTimeout == 60 && !waitInitial
      ensures !paused && hooked && this.sendResult == sendResult
    {
      this.sendResult := sendResult;
      waitForConnect, attached, disposed, hasActiveConnection := true, false, false, false;
      pendingPause, stopOnError, pauseOnActivate, pauseTimeout := false, false, false, 60;
      waitInitial, luaBase, metrics := false, false, NO_METRICS;
      sends, open, hooked, paused, pausedAtEntry, now := 0, false, true, false, false, 0;
      accepted, suppressed, book := 0, 0, Book([], [], map[]);
      blockingWaits, inWait := 0, false;
    }

    /** Connection, disposal, waits and time are as they were. */
    twostate predicate SameFlow()
      reads this
    {
      && open == old(open) && hooked == old(hooked) && disposed == old(disposed)
      && waitForConnect == old(waitForConnect) && waitInitial == old(waitInitial)
      && blockingWaits == old(blockingWaits) && inWait == old(inWait)
      && now == old(now) && pauseTimeout == old(pauseTimeout)
    }

    // ---------- sending ----------

    /** Nothing is sent once disposed; a message the stream refuses counts as a failure. */
    method SendMessage() returns (sent: bool)
      modifies this`sends, this`metrics, this`accepted, this`suppressed
      ensures sends == old(sends) + One(!disposed) && (!disposed ==> sent == sendResult(old(sends)))
      ensures disposed ==>
                && !sent && suppressed == old(suppressed) + 1
                && accepted == old(accepted) && metrics == old(metrics)
      ensures !disposed && sent ==>
                && accepted == old(accepted) + 1
                && suppressed == old(suppressed) && metrics == old(metrics)
      ensures !disposed && !sent ==>
                && accepted == old(accepted) && suppressed == old(suppressed)
                && metrics == old(metrics).(sendFailures := old(metrics).sendFailures + 1)
    {
      if disposed {
        suppressed := suppressed + 1;
        return false;
      }
      sent := sendResult(sends);
      sends := sends + 1;
      if sent {
        accepted := accepted + 1;
      } else {
        metrics := metrics.(sendFailures := metrics.sendFailures + 1);
      }
    }

    method SendNotify()
      modifies this`sends, this`metrics, this`accepted, this`suppressed
      ensures SameFlow()
      ensures disposed ==> accepted == old(accepted) && suppressed == old(suppressed) + 1
      ensures accepted + metrics.sendFailures + suppressed == old(accepted + metrics.sendFailures + suppressed) + 1
      ensures var was := old(metrics);
              metrics == was.(notificationsSent := was.notificationsSent + 1, sendFailures := metrics.sendFailures)
    {
      metrics := metrics.(notificationsSent := metrics.notificationsSent + 1);
      var sent := SendMessage();
    }

    /** send_response: counts by error code, then sends. */
    method SendResponse(response: Response)
      modifies this`sends, this`metrics, this`accepted, this`suppressed
      ensures disposed ==> accepted == old(accepted)
      ensures accepted + metrics.sendFailures + suppressed == old(accepted + metrics.sendFailures + suppressed) + 1
      ensures var was, e := old(metrics), response.error;
              metrics == was.(responsesSent := was.responsesSent + 1, sendFailures := metrics.sendFailures,
                              invalidParamsErrors := was.invalidParamsErrors + One(e == Some(InvalidParams)),
                              methodNotFoundErrors := was.methodNotFoundErrors + One(e == Some(MethodNotFound)),
                              internalErrors := was.internalErrors + One(e == Some(InternalError)))
    {
      if response.error.Some? {
        match response.error.value
        case InvalidParams => metrics := metrics.(invalidParamsErrors := metrics.invalidParamsErrors + 1);
        case MethodNotFound => metrics := metrics.(methodNotFoundErrors := metrics.methodNotFoundErrors + 1);
        case InternalError => metrics := metrics.(internalErrors := metrics.internalErrors + 1);
        case OtherError =>
      }
      metrics := metrics.(responsesSent := metrics.responsesSent + 1);
      var sent := SendMessage();
    }

    // ---------- what every activity keeps ----------

    /** Time and counters do not run backwards, and nothing reaches the stream of a disposed server. */
    twostate predicate Moves()
      reads this
    {
      && old(now) <= now && inWait == old(inWait) && pauseTimeout == old(pauseTimeout)
      && Grows(old(metrics), metrics) && (hooked ==> old(hooked))
      && (old(disposed) ==> disposed && accepted == old(accepted))
    }

    /** The invariant holds, handlers are properly nested, and the record of requests and answers only grows. */
    twostate predicate Proceeds()
      reads this
    {
      Inv() && Extends(old(book), book) && Moves()
    }

    /** Once the initial wait is over, only a fresh activation can start another. */
    twostate predicate NoNewWait()
      reads this
    {
      && (!old(waitInitial) ==> !waitInitial && blockingWaits == old(blockingWaits) && (Expired() ==> old(Expired())))
      && (old(Calm()) ==> Calm())
    }

    /** No wait blocked in between, and none expired. */
    twostate predicate NoWait()
      reads this
    {
      old(Calm()) ==> blockingWaits == old(blockingWaits) && (Expired() ==> old(Expired()))
    }

    /** What every activity keeps. */
    twostate predicate Continues()
      reads this
    {
      Proceeds() && NoNewWait()
    }

    // ---------- stream callbacks ----------

    method Connect()
      requires Inv() && !open && hooked
      modifies this`open, this`waitForConnect, this`waitInitial, this`pendingPause, this`hasActiveConnection,
                this`metrics
      ensures Inv() && open && !waitForConnect && !waitInitial && !pendingPause && hasActiveConnection
      ensures metrics == old(metrics).(connectionsOpened := old(metrics).connectionsOpened + 1)
    {
      metrics := metrics.(connectionsOpened := metrics.connectionsOpened + 1);
      open, waitForConnect, waitInitial, pendingPause := true, false, false, false;
      hasActiveConnection := true;
    }

    /** Announces the connection, and the pause when there is one. */
    method Greet()
      requires Inv()
      modifies this`sends, this`metrics, this`accepted, this`suppressed
      ensures SameFlow()
      ensures Inv()
      ensures disposed ==> accepted == old(accepted)
      ensures metrics == old(metrics).(notificationsSent := metrics.notificationsSent,
                sendFailures := metrics.sendFailures)
      ensures metrics.notificationsSent == old(metrics).notificationsSent + 1 + One(paused)
    {
      SendNotify();
      if paused {
        SendNotify();
      }
    }

    /** connected_done. on_connection is unhooked by exit(), so a disposed server never gets here. */
    method ConnectedDone()
      requires Inv() && !open && hooked
      modifies this
      ensures Continues() && open && !waitForConnect && !waitInitial && !pendingPause
      ensures blockingWaits == old(blockingWaits) && disposed == old(disposed) && book == old(book)
      ensures paused == (old(paused) && (old(waitInitial) ==> pausedAtEntry))
      ensures metrics.notificationsSent == old(metrics).notificationsSent + 1 + One(old(paused))
    {
      var wasWaitingForInitialPause := waitInitial;
      Connect();
      Greet();
      if wasWaitingForInitialPause && !pausedAtEntry {
        paused := false;
      }
    }

    /** The stream closes and on_close runs. */
    method OnClose()
      requires Inv() && open
      modifies this
      ensures Continues() && !open && waitForConnect && !paused
      ensures blockingWaits == old(blockingWaits) && disposed == old(disposed) && book == old(book)
      ensures var closed := old(metrics).connectionsClosed + One(old(hasActiveConnection));
              metrics == old(metrics).(connectionsClosed := closed)
    {
      open := false;
      if hasActiveConnection {
        metrics := metrics.(connectionsClosed := metrics.connectionsClosed + 1);
      }
      hasActiveConnection, waitForConnect, paused := false, true, false;
    }

    method PerformEvent(e: StreamEvent)
      requires Inv()
      modifies this
      ensures Continues() && NoWait()
      ensures e.Opened? ==> open == (old(open) || old(hooked))
      ensures e.Closed? ==> !open
      ensures e.Failed? ==> metrics.streamErrors == old(metrics).streamErrors + One(hooked)
      ensures e.Data? && old(open) && e.message.Request? ==> Answered(book, |old(book).received|, e.message.id)
      decreases e
    {
      match e
      case Opened =>
        if !open && hooked {
          ConnectedDone();
        }
      case Closed =>
        if open {
          OnClose();
        }
      case Failed =>
        if hooked {
          metrics := metrics.(streamErrors := metrics.streamErrors + 1);
        }
      case Data(message) =>
        if open {
          ExecuteMessage(message);
        }
    }

    /** poll(): delivers the events in order. */
    method Poll(events: seq<StreamEvent>)
      requires Inv()
      modifies this
      ensures Continues() && NoWait()
      ensures events == [] ==> unchanged(this)
      ensures events != [] && events[|events| - 1].Closed? ==> !open
      ensures EndsWithClient(events) ==> open || !hooked
      ensures old(open) && StartsWithRequest(events) ==>
                Answered(book, |old(book).received|, events[0].message.id)
      decreases events
    {
      for i := 0 to |events|
        invariant Continues() && NoWait()
        invariant i == 0 ==> unchanged(this)
        invariant i > 0 && events[i - 1].Closed? ==> !open
        invariant i > 0 && events[i - 1].Opened? ==> open || !hooked
        invariant i > 0 && old(open) && StartsWithRequest(events) ==>
                    Answered(book, |old(book).received|, events[0].message.id)
      {
        PerformEvent(events[i]);
      }
    }

    // ---------- messages ----------

    /** execute_message: every message is answered once. */
    method ExecuteMessage(message: Message)
      requires Inv() && (waitInitial ==> !inWait)
      modifies this
      ensures Continues()
      ensures message.Garbage? ==> metrics.parseErrors == old(metrics).parseErrors + 1 && book == old(book)
      ensures message.NotRequest? ==> metrics.invalidRequests == old(metrics).invalidRequests + 1 && book == old(book)
      ensures message.Request? ==> Answered(book, |old(book).received|, message.id)
      decreases message
    {
      match message
      case Garbage =>
        metrics := metrics.(parseErrors := metrics.parseErrors + 1);
        SendResponse(Response(0, Some(OtherError)));
      case NotRequest(id) =>
        metrics := metrics.(invalidRequests := metrics.invalidRequests + 1);
        SendResponse(Response(id, Some(OtherError)));
      case Request(id, known, handler) =>
        ExecuteRequest(id, known, handler);
    }

    /** Takes up a request. */
    method Begin(id: Id)
      requires Inv()
      modifies this`metrics, this`book
      ensures Inv() && book == Receive(old(book), id)
      ensures metrics == old(metrics).(requestsReceived := old(metrics).requestsReceived + 1)
    {
      metrics := metrics.(requestsReceived := metrics.requestsReceived + 1);
      ReceiveKeeps(book, id);
      book := Receive(book, id);
    }

    /** Sends the response of the innermost request. */
    method Answer(response: Response)
      requires Inv() && Handling(book, response.id)
      modifies this`sends, this`metrics, this`accepted, this`suppressed, this`book
      ensures SameFlow()
      ensures Inv() && book == AnswerLast(old(book), response.id)
      ensures Grows(old(metrics), metrics)
      ensures disposed ==> accepted == old(accepted)
    {
      AnswerKeeps(book);
      SendResponse(response);
      book := AnswerLast(book, response.id);
    }

    /** execute_request: the handler runs with the request on the stack of requests being handled; it
        replies itself or throws, and then the catch clause replies. Either way the request is answered
        once, with its own id. */
    method ExecuteRequest(id: Id, known: bool, handler: Handler)
      requires Inv() && (waitInitial ==> !inWait)
      modifies this
      ensures Continues() && Answered(book, |old(book).received|, id)
      ensures !old(disposed) && known ==> Applied(handler.effect)
      decreases handler, 3
    {
      ghost var before := book;
      var response := Serve(id, known, handler);
      Conclude(before, response);
    }

    /** Answers the request that was taken up on top of `before`. */
    method Conclude(ghost before: SoundBook, response: Response)
      requires Inv() && Extends(Receive(before, response.id), book)
      modifies this`sends, this`metrics, this`accepted, this`suppressed, this`book
      ensures SameFlow()
      ensures Inv() && Extends(before, book) && Answered(book, |before.received|, response.id)
      ensures Grows(old(metrics), metrics)
      ensures disposed ==> accepted == old(accepted)
    {
      HandledOne(before, response.id, book);
      Answer(response);
    }

    /** Everything about a request up to its response. */
    method Serve(id: Id, known: bool, handler: Handler) returns (response: Response)
      requires Inv() && (waitInitial ==> !inWait)
      modifies this
      ensures Inv() && Extends(Receive(old(book), id), book) && Moves() && NoNewWait() && response.id == id
      ensures !old(disposed) && known ==> Applied(handler.effect)
      decreases handler, 2
    {
      Begin(id);
      response := Dispatch(Response(id, None), known, handler);
    }

    /** Looks the method up in the command table and calls it, unless the server is disposed. */
    method Dispatch(response: Response, known: bool, handler: Handler) returns (r: Response)
      requires Inv() && (waitInitial ==> !inWait)
      modifies this
      ensures Continues() && r.id == response.id
      ensures old(disposed) ==> r.error == Some(OtherError)
      ensures !old(disposed) && !known ==> r.error == Some(MethodNotFound)
      ensures !old(disposed) && known ==>
                && Applied(handler.effect)
                && r.error == if handler.ending.Throws? then Some(InternalError) else handler.ending.error
      decreases handler, 1
    {
      if disposed {
        r := response.(error := Some(OtherError));
      } else if known {
        r := RunHandler(response, handler);
      } else {
        r := response.(error := Some(MethodNotFound));
      }
    }

    /** What a handler is for has happened. */
    predicate Applied(effect: Effect)
      reads this
    {
      match effect
      case NoEffect => true
      case SetStopOnError(b) => stopOnError == b
      case ClearErrorCache => !pendingPause
      case Unpause => !paused
      case Pause => paused && !pausedAtEntry
    }

    /** The call through the command table with its catch clauses: what response will be sent. */
    method RunHandler(response: Response, handler: Handler) returns (r: Response)
      requires Inv() && (waitInitial ==> !inWait)
      modifies this
      ensures Continues() && r.id == response.id
      ensures r.error == if handler.ending.Throws? then Some(InternalError) else handler.ending.error
      ensures Applied(handler.effect)
      decreases handler, 0
    {
      PerformAll(handler.nested);
      Apply(handler.effect);
      r := response.(error := if handler.ending.Throws? then Some(InternalError) else handler.ending.error);
    }

    method Apply(effect: Effect)
      modifies this`stopOnError, this`pendingPause, this`paused, this`pausedAtEntry
      ensures SameFlow()
      ensures stopOnError == if effect.SetStopOnError? then effect.b else old(stopOnError)
      ensures pendingPause == (old(pendingPause) && effect != ClearErrorCache)
      ensures paused == (effect == Pause || (old(paused) && effect != Unpause))
      ensures pausedAtEntry == (old(pausedAtEntry) && effect != Pause)
    {
      match effect
      case NoEffect =>
      case SetStopOnError(b) => stopOnError := b;
      case ClearErrorCache => pendingPause := false;
      case Unpause => paused := false;
      case Pause => paused, pausedAtEntry := true, false;
    }

    // ---------- activities ----------

    method PerformAll(activities: seq<Activity>)
      requires Inv() && (waitInitial ==> !inWait)
      modifies this
      ensures Continues()
      decreases activities
    {
      for i := 0 to |activities|
        invariant Continues()
      {
        Perform(activities[i]);
      }
    }

    method Perform(a: Activity)
      requires Inv() && (waitInitial ==> !inWait)
      modifies this
      ensures Continues()
      decreases a, 2
    {
      match a
      case Tick(_, _) => DoTick(a);
      case PauseBegins(events) => DoPause(events);
      case ConsoleOutput(isError) => HandleConsoleOutput(isError);
      case Exit => DoExit();
    }

    method Dispose()
      requires Flags()
      modifies this`disposed, this`attached, this`waitForConnect, this`waitInitial, this`pendingPause, this`luaBase,
               this`paused, this`hooked, this`open
      ensures Flags() && disposed && !attached && waitForConnect && !waitInitial && !luaBase && !hooked
      ensures !pendingPause && !paused && !open
    {
      disposed, attached, waitForConnect, waitInitial := true, false, true, false;
      pendingPause, luaBase, paused, hooked := false, false, false, false;
      open := false;
    }

    /** exit(): the flag is set before the notice is sent, so send_message suppresses it; the stream never
        accepts the exit notice. */
    method DoExit()
      requires Inv()
      modifies this
      ensures Continues() && disposed && !open && blockingWaits == old(blockingWaits)
      ensures if old(disposed) then waitForConnect == old(waitForConnect) else waitForConnect && !attached && !luaBase
      ensures accepted == old(accepted)
      ensures suppressed == old(suppressed) + One(!old(disposed) && old(open))
    {
      if disposed {
        return;
      }
      var wasOpen := open;
      Dispose();
      if wasOpen {
        SendNotify();
      }
    }

    method HandleConsoleOutput(isError: bool)
      requires Inv()
      modifies this`sends, this`metrics, this`accepted, this`suppressed, this`pendingPause
      ensures Continues()
      ensures pendingPause == (old(pendingPause) || (isError && attached && !disposed && stopOnError))
      ensures metrics.notificationsSent == old(metrics).notificationsSent + 1 + One(isError)
    {
      SendNotify();
      if !isError {
        return;
      }
      SendNotify();
      if attached && !disposed && stopOnError {
        pendingPause := true;
      }
    }

    /** A notification between two states that satisfy the invariant. */
    method Announce()
      requires Inv()
      modifies this`sends, this`metrics, this`accepted, this`suppressed
      ensures SameFlow()
      ensures Inv() && (disposed ==> accepted == old(accepted))
      ensures Grows(old(metrics), metrics) && metrics.notificationsSent == old(metrics.notificationsSent) + 1
    {
      SendNotify();
    }

    method BeginPause()
      requires Inv()
      modifies this`paused, this`sends, this`metrics, this`accepted, this`suppressed
      ensures SameFlow()
      ensures Inv() && paused && (disposed ==> accepted == old(accepted))
      ensures Grows(old(metrics), metrics) && metrics.notificationsSent == old(metrics.notificationsSent) + 1
    {
      paused := true;
      Announce();
    }

    /** The pause handler: announces the pause, serves the stream until resumed or disconnected, announces
        running. When the listed events run out, the peer disconnects. */
    method DoPause(events: seq<StreamEvent>)
      requires Inv()
      modifies this
      ensures Continues() && (!old(disposed) ==> !paused || !open)
      ensures !old(disposed) ==> metrics.notificationsSent >= old(metrics.notificationsSent) + 2
      ensures !old(disposed) && !old(open) ==>
                paused && metrics.notificationsSent == old(metrics.notificationsSent) + 2
      decreases events, 2
    {
      if disposed {
        return;
      }
      BeginPause();
      ServePause(events);
    }

    method ServePause(events: seq<StreamEvent>)
      requires Inv()
      modifies this
      ensures Continues() && (!paused || !open)
      ensures metrics.notificationsSent >= old(metrics.notificationsSent) + 1
      ensures !old(open) ==>
                paused == old(paused) && metrics.notificationsSent == old(metrics.notificationsSent) + 1
      decreases events, 1
    {
      ServeWhilePaused(events);
      Announce();
    }

    method ServeWhilePaused(events: seq<StreamEvent>)
      requires Inv()
      modifies this
      ensures Continues() && (!paused || !open)
      ensures !old(open) ==> paused == old(paused) && metrics == old(metrics)
      decreases events, 0
    {
      var k := 0;
      while paused && open
        invariant Continues() && (!old(open) ==> !open && paused == old(paused) && metrics == old(metrics))
        decreases |events| - k, open
      {
        if disposed {
          break;
        }
        if k < |events| {
          PerformEvent(events[k]);
          k := k + 1;
        } else {
          OnClose();
        }
      }
    }

    // ---------- the tick handler and the wait ----------

    /** The tick handler. In a tick with nothing to wait for and nothing to receive, a waiting pause request
        is taken, and pauses the debugger if the server is attached. */
    method DoTick(a: Activity)
      requires Inv() && a.Tick? && (waitInitial ==> !inWait)
      modifies this
      ensures Continues()
      ensures !old(disposed) && !old(waitForConnect) && a.last == [] ==>
                !pendingPause && paused == (old(paused) || (old(pendingPause) && old(attached)))
      ensures old(open) && StartsWithRequest(a.last) ==>
                Answered(book, |old(book).received|, a.last[0].message.id)
      ensures old(waitForConnect && waitInitial && paused && !open && !disposed) ==>
                !waitInitial && blockingWaits == 1
      ensures old(waitForConnect && !waitInitial && !disposed) ==> ConnectedOrCounted(old(metrics), metrics)
      decreases a, 1
    {
      if disposed {
        return;
      }
      TakePauseRequest();
      WaitThenPoll(a);
    }

    method WaitThenPoll(a: Activity)
      requires Inv() && a.Tick? && (waitInitial ==> !inWait)
      modifies this
      ensures Continues()
      ensures !old(waitForConnect) && a.last == [] ==> unchanged(this)
      ensures old(open) && StartsWithRequest(a.last) ==>
                Answered(book, |old(book).received|, a.last[0].message.id)
      ensures old(waitForConnect && waitInitial && paused && !open) ==> !waitInitial && blockingWaits == 1
      ensures old(waitForConnect && !waitInitial && !disposed) ==> ConnectedOrCounted(old(metrics), metrics)
      decreases a, 0
    {
      var proceed := true;
      if waitForConnect {
        proceed := WaitInTick(a.rounds);
      }
      if proceed {
        Poll(a.last);
      }
    }

    method TakePauseRequest()
      modifies this`pendingPause, this`paused, this`pausedAtEntry
      ensures !pendingPause
      ensures paused == (old(paused) || (old(pendingPause) && attached))
      ensures pausedAtEntry == (old(pausedAtEntry) && (old(paused) || !paused))
    {
      var requested := pendingPause;
      pendingPause := false;
      if requested && attached && !paused {
        paused, pausedAtEntry := true, false;
      }
    }

    method WaitInTick(rounds: seq<Round>) returns (connected: bool)
      requires Inv() && waitForConnect && (waitInitial ==> !inWait)
      modifies this
      ensures Continues() && (connected ==> open)
      ensures old(waitInitial && paused && !open) ==> !waitInitial && blockingWaits == 1
      ensures !old(waitInitial && paused) ==> ConnectedOrCounted(old(metrics), metrics)
      decreases rounds, 4
    {
      var block := waitInitial && paused && !open;
      var screen;
      ghost var turns;
      connected, screen, turns := WaitForConnection(block, rounds);
      if !connected && !block {
        metrics := metrics.(waitTimeouts := metrics.waitTimeouts + 1);
      }
    }

    /** The poll of turn k. A wait without a timeout ends, at the latest, with the shutdown of the server,
        which the end of the script stands for. */
    method PollTurn(rounds: seq<Round>, k: nat, endless: bool) returns (round: Round)
      requires Inv()
      modifies this
      ensures Continues() && NoWait()
      ensures endless && k >= |rounds| ==> disposed
      ensures BringsClient(rounds, k) ==> open || !hooked
      decreases rounds, 0
    {
      round := IDLE;
      if k < |rounds| {
        round := rounds[k];
        Poll(round.events);
      } else if endless {
        DoExit();
      }
    }

    /** The wait has run into its deadline. */
    method Expire()
      requires Flags() && !open && inWait
      modifies this`waitForConnect, this`waitInitial, this`paused
      ensures Flags() && !waitForConnect && !waitInitial && !paused
    {
      waitForConnect, waitInitial, paused := false, false, false;
    }

    /** A connection and an expiry are announced by the closing line, and the wait expires no earlier than
        its deadline. */
    ghost predicate ClosedRightly(screen: Screen, start: nat)
      reads this
    {
      && (open ==> Closes(screen, if pausedAtEntry then CONNECTED_ENTRY else CONNECTED_DONE))
      && (!open && !disposed ==> Closes(screen, EXPIRED))
      && (Expired() ==> now >= start + 1000 * pauseTimeout)
    }

    /** wait_for_connection. A blocking wait happens only once per activation; with a timeout of T seconds it
        ends within 1000 T + 1 turns, with the stream open, the server disposed, or both wait flags cleared
        and the debugger running; and its countdown is a good one. */
    method WaitForConnection(block: bool, rounds: seq<Round>)
      returns (connected: bool, screen: Screen, ghost turns: nat)
      requires Inv() && waitForConnect && (block ==> waitInitial && !inWait && !open)
      modifies this
      ensures Continues() && connected == open
      ensures BringsClient(rounds, 0) ==> connected || !hooked
      ensures !block ==> turns <= 1 && screen == BLANK && blockingWaits == old(blockingWaits)
      ensures block ==> old(blockingWaits) == 0 && blockingWaits == 1 && !waitInitial
      ensures block ==> open || disposed || (!waitForConnect && !waitInitial && !paused)
      ensures block && pauseTimeout > 0 ==> turns <= 1000 * pauseTimeout + 1 && GoodCountdown(screen, pauseTimeout)
      ensures block && pauseTimeout > 0 ==> ClosedRightly(screen, old(now))
      ensures block && pauseTimeout > 0 && (turns > 1 || Expired()) ==> screen.shown != []
      ensures block && pauseTimeout > 0 ==> old(now) + screen.lastRead <= now
      ensures block && pauseTimeout == 0 ==> open || disposed
      decreases rounds, 3
    {
      if block {
        inWait, blockingWaits := true, 1;
      }
      connected, screen, turns := WaitTurns(block, rounds);
      inWait := old(inWait);
    }

    /** The loop of wait_for_connection. */
    method WaitTurns(block: bool, rounds: seq<Round>) returns (connected: bool, screen: Screen, ghost turns: nat)
      requires Inv() && waitForConnect && (block ==> waitInitial && inWait && !open)
      modifies this
      ensures Continues() && connected == open && blockingWaits == old(blockingWaits)
      ensures !block ==> turns <= 1 && screen == BLANK && !Expired()
      ensures block ==> !waitInitial && (open || disposed || (!waitForConnect && !paused))
      ensures BringsClient(rounds, 0) ==> open || !hooked
      ensures block && pauseTimeout > 0 ==> turns <= 1000 * pauseTimeout + 1 && GoodCountdown(screen, pauseTimeout)
      ensures block && pauseTimeout > 0 ==> ClosedRightly(screen, old(now))
      ensures block && pauseTimeout > 0 && (turns > 1 || Expired()) ==> screen.shown != []
      ensures block && pauseTimeout > 0 ==> old(now) + screen.lastRead <= now
      ensures block && pauseTimeout == 0 ==> open || disposed
      decreases rounds, 2
    {
      var start, seconds := now, pauseTimeout;
      var showCountdown := block && seconds > 0;
      screen, turns := BLANK, 0;
      var k, elapsed, done := 0, 0, false;
      while waitForConnect && !open
        invariant Continues() && blockingWaits == old(blockingWaits) && !Expired()
        invariant block ==> !open
        invariant k > 0 && BringsClient(rounds, 0) ==> !hooked
        invariant showCountdown && turns > 0 ==> screen.shown != []
        invariant start + elapsed <= now && turns == k <= elapsed && (!block ==> k == 0)
        invariant if showCountdown then elapsed <= 1000 * seconds && CountingAt(screen, seconds, elapsed)
                  else screen == BLANK
        decreases if showCountdown then 1000 * seconds - elapsed else if k < |rounds| then |rounds| - k
                  else 0, !disposed
      {
        if disposed {
          return false, screen, turns;
        }
        done, screen, elapsed := WaitTurn(block, seconds, start, rounds, k, screen, elapsed);
        assert Continues();
        k, turns := k + 1, turns + 1;
        if done {
          return open, screen, turns;
        }
      }
      connected := !disposed && open;
    }

    /** One turn of the wait: polls, and goes on unless a client has connected, the wait does not block, or
        the deadline has come. */
    method WaitTurn(block: bool, seconds: nat, start: nat, rounds: seq<Round>, k: nat, screen: Screen, before: nat)
      returns (done: bool, r: Screen, elapsed: nat)
      requires Inv() && waitForConnect && (block ==> inWait) && start + before <= now
      requires if block && seconds > 0 then CountingAt(screen, seconds, before) else screen == BLANK
      modifies this
      ensures Proceeds() && blockingWaits == old(blockingWaits) && Calm() && (!old(waitInitial) ==> !waitInitial)
      ensures !(block && seconds > 0) ==> r == BLANK && (block && k >= |rounds| ==> disposed)
      ensures !done ==> block && before < elapsed && start + elapsed <= now && waitForConnect
      ensures !done && seconds > 0 ==> elapsed <= 1000 * seconds && CountingAt(r, seconds, elapsed)
      ensures done && !open ==> if block then !waitForConnect && !waitInitial && !paused else waitForConnect
      ensures !done ==> !open
      ensures done && block && seconds > 0 ==> GoodCountdown(r, seconds)
      ensures done && block && seconds > 0 && open ==>
                Closes(r, if pausedAtEntry then CONNECTED_ENTRY else CONNECTED_DONE)
      ensures done && block && !open ==> seconds > 0 && Closes(r, EXPIRED) && now - start >= 1000 * seconds
      ensures block && seconds > 0 ==> (!open || screen.shown != [] ==> r.shown != []) && start + r.lastRead <= now
      ensures BringsClient(rounds, k) ==> open || !hooked
      decreases rounds, 1
    {
      var round := PollTurn(rounds, k, block && seconds == 0);
      ghost var read;
      done, r, elapsed, read := AfterPoll(block, seconds, start, round, screen, before);
      assert Proceeds();
    }

    /** What a turn does after its poll. Without a client, a countdown reads the clock once and reports. */
    method AfterPoll(block: bool, seconds: nat, start: nat, round: Round, screen: Screen, before: nat)
      returns (done: bool, r: Screen, elapsed: nat, ghost read: nat)
      requires Flags() && (block ==> inWait) && (!open ==> waitForConnect) && start + before <= now
      requires if block && seconds > 0 then CountingAt(screen, seconds, before) else screen == BLANK
      modifies this`now, this`waitForConnect, this`waitInitial, this`paused
      ensures Flags() && old(now) <= now && (!old(waitInitial) ==> !waitInitial) && (old(Calm()) ==> Calm())
      ensures !(block && seconds > 0) ==> r == BLANK
      ensures !done ==> block && !open && before < elapsed && start + elapsed <= now && waitForConnect
      ensures !done && seconds > 0 ==> elapsed <= 1000 * seconds && CountingAt(r, seconds, elapsed)
      ensures done && !open ==> if block then !waitForConnect && !waitInitial && !paused else waitForConnect
      ensures done && block && seconds > 0 ==> GoodCountdown(r, seconds)
      ensures done && block && seconds > 0 && open ==>
                Closes(r, if pausedAtEntry then CONNECTED_ENTRY else CONNECTED_DONE)
      ensures done && block && !open ==> seconds > 0 && Closes(r, EXPIRED) && now - start >= 1000 * seconds
      ensures !open && block && seconds > 0 ==>
                before <= read && start + read <= now && TurnedAt(screen, r, done, seconds, read)
      ensures open && block && seconds > 0 ==> r.shown == screen.shown && r.lastRead == screen.lastRead
    {
      var showCountdown := block && seconds > 0;
      done, r, elapsed, read := true, screen, before, before;
      if open {
        if showCountdown {
          r := Arrived(screen, seconds, before);
        }
      } else if block {
        done, r, elapsed, read := CountDown(showCountdown, seconds, start, round, screen, before);
      }
    }

    /** The closing line when a client has connected during the countdown. */
    method Arrived(screen: Screen, seconds: nat, ghost elapsed: nat) returns (r: Screen)
      requires CountingAt(screen, seconds, elapsed)
      ensures Closes(r, if pausedAtEntry then CONNECTED_ENTRY else CONNECTED_DONE)
      ensures GoodCountdown(r, seconds) && r.shown == screen.shown && r.lastRead == screen.lastRead
    {
      var message := if pausedAtEntry then CONNECTED_ENTRY else CONNECTED_DONE;
      FinishKeeps(screen, seconds, elapsed, message);
      r := Finish(screen, message);
    }

    /** What a blocking turn does after its poll: it reports the countdown, expires at the deadline and
        otherwise sleeps. */
    method CountDown(showCountdown: bool, seconds: nat, start: nat, round: Round, screen: Screen, before: nat)
      returns (over: bool, r: Screen, elapsed: nat, ghost read: nat)
      requires Flags() && !open && inWait && start + before <= now
      requires showCountdown ==> CountingAt(screen, seconds, before)
      modifies this`now, this`waitForConnect, this`waitInitial, this`paused
      ensures Flags() && old(now) <= now
      ensures !showCountdown ==> !over && r == screen
      ensures over ==> !waitForConnect && !waitInitial && !paused && GoodCountdown(r, seconds)
      ensures over ==> Closes(r, EXPIRED) && now - start >= 1000 * seconds
      ensures showCountdown ==>
                start + read == old(now) + round.busy <= now && TurnedAt(screen, r, over, seconds, read)
      ensures !over ==>
        && waitForConnect == old(waitForConnect) && waitInitial == old(waitInitial)
        && paused == old(paused) && before < elapsed && start + elapsed <= now
      ensures !over && showCountdown ==> elapsed <= 1000 * seconds && CountingAt(r, seconds, elapsed)
    {
      over, r, elapsed, now := false, screen, before, now + round.busy;
      var shownAt := now - start;
      read := shownAt;
      if showCountdown {
        now := now + round.between;
        over, r := Show(screen, seconds, before, shownAt, now - start, now - start + 1);
        if over {
          Expire();
          return;
        }
      }
      now := now + 1;
      elapsed := now - start;
    }

    /** Reports the countdown, and closes its line when the deadline has come. */
    method Show(screen: Screen, seconds: nat, ghost before: nat, read: nat, elapsed: nat, ghost after: nat)
      returns (over: bool, r: Screen)
      requires CountingAt(screen, seconds, before) && before <= read <= elapsed <= after
      ensures over == (elapsed >= 1000 * seconds)
      ensures over ==> GoodCountdown(r, seconds) && Closes(r, EXPIRED)
      ensures !over ==> CountingAt(r, seconds, after)
      ensures TurnedAt(screen, r, over, seconds, read)
    {
      ReportKeeps(screen, seconds, before, read);
      over, r := elapsed >= 1000 * seconds, ReportAt(screen, seconds, read);
      if over {
        FinishKeeps(r, seconds, read, EXPIRED);
        ghost var lines := r.lines;
        r := Finish(r, EXPIRED);
        assert Reopened(r).lines == lines;
      }
    }

    // ---------- activation ----------

    /** reset(L) with a Lua state: starts an activation, with an initial wait if one is asked for. `entry` is
        whether the debugger reports the pause as the entry stop. */
    method Activate(entry: bool)
      requires Flags() && !inWait
      modifies this`attached, this`disposed, this`pendingPause, this`stopOnError, this`luaBase, this`waitInitial,
               this`paused, this`pausedAtEntry, this`blockingWaits
      ensures Flags() && attached && !disposed && !pendingPause && !stopOnError && luaBase
      ensures waitInitial == pauseOnActivate && (waitInitial ==> paused) && blockingWaits == 0
    {
      attached, disposed, pendingPause, stopOnError, luaBase := true, false, false, false, true;
      waitInitial := pauseOnActivate;
      blockingWaits := 0;
      if pauseOnActivate {
        paused, pausedAtEntry := true, entry;
      }
    }

    /** set_pause_on_activate and set_pause_timeout: a negative timeout means 60 seconds. */
    method Configure(pause: bool, seconds: int)
      modifies this`pauseOnActivate, this`pauseTimeout
      ensures pauseOnActivate == pause && pauseTimeout == if seconds < 0 then 60 else seconds
    {
      pauseOnActivate, pauseTimeout := pause, if seconds < 0 then 60 else seconds;
    }

    /** What the module does with a new server: it passes on the launch options and then resets it. The server
        then waits for a client exactly when the option says so, for the given time. */
    method Start(pause: bool, seconds: int, entry: bool)
      requires Inv() && !inWait
      modifies this
      ensures Inv() && attached && !disposed && !pendingPause && !stopOnError && book == old(book)
      ensures waitInitial == pause && (pause ==> paused) && blockingWaits == 0
      ensures if seconds < 0 then pauseTimeout == 60 else pauseTimeout == seconds
    {
      Configure(pause, seconds);
      Activate(entry);
    }
  }
}
