/** Runs of the client as its surroundings see them: the calls it makes to the
    transport and to the user's callbacks, and the calls made to it. `Allowed`
    is the law of the next event; a run is legal when every event obeys it. */
module Run {
  import opened Bytes
  import opened Lines
  import opened StreamSpec
  import opened Messages
  import opened Backoff
  import opened WrappingClock

  datatype Config = Config(
    caps: Caps, defaultRetry: uint32, maxRetry: uint32, jitter: uint8,
    idleTimeout: uint32, readTimeout: uint32, skipContentType: bool, hasPolicy: bool,
    extraHeaders: seq<bytes>, rxLen: nat, world: World)

  /** What the surroundings will do, whatever that is: the client cannot choose it. */
  datatype World = World(
    closeIn: nat -> bool,             // does the user close the client in this callback?
    answerIn: nat -> bool,            // what does the policy answer, if this callback asks it?
    stopIn: nat -> bool,              // may another task request a stop during this poll?
    openIn: nat -> Option<Response>,  // what does an open in this poll come to?
    readIn: nat -> Got)               // and a read?

  datatype Reason = Transport | HttpStatus | BadContentType | ServerStop | IdleTimeout

  datatype Info = MessageTooLarge | EventTypeRejected

  /** What a successful transport open reports. */
  datatype Response = Response(status: int, contentType: bytes, retryAfter: int32)

  /** What a transport read returns, and what it leaves in the whole buffer. */
  datatype Got = Got(count: int, data: bytes)

  /** A read into a buffer of this size. */
  function Filled(got: Got, size: nat): (g: Got)
    ensures |g.data| == size && g.count == got.count
  {
    Got(got.count, seq(size, k requires 0 <= k < size => if k < |got.data| then got.data[k] else NUL))
  }

  datatype Event =
    | PollBegin
    | PollEnd(hint: nat, at: nat)
    | Opened(at: nat, headers: seq<bytes>, response: Option<Response>)
    | Shut
    | ReadDone(got: Got)
    | Fed(at: nat, chunk: bytes)
    | Parsed(cb: Callback)
    | OnOpen(at: nat, reconnects: nat)
    | OnMessage(message: Message)
    | OnInfo(info: Info)
    | Asked(reason: Reason, status: int, advice: bool, answer: bool)
    | OnFail(reason: Reason, status: int, willRetry: bool, delay: nat, at: nat)
    | OnClosed
    | CloseCalled
    | StopRequested

  datatype Phase = Idle | Connecting | Receiving | Failing | Ending | Waiting | Closed

  datatype Turn = Between | Begun | Worked

  /** What a run so far says about what may come next. */
  datatype Facts = Facts(
    phase: Phase,
    transport: bool,             // the transport is open
    stopped: bool,               // a stop has been requested
    doomed: bool,                // the client must close before anything else
    established: bool,           // the current connection got as far as on_open
    response: Option<Response>,  // of the last transport open
    asked: Option<Event>,        // what the policy answered about the current failure
    turn: Turn,                  // is a poll under way, and has it opened or read?
    got: Option<Got>,            // what it read, until that is fed to the parser
    owed: Option<Event>,         // the callback that must come next
    userRuns: bool,              // a user callback is running
    calls: nat,                  // user callbacks so far
    polls: nat,                  // polls so far
    scheduled: nat,              // retries announced since the last event
    baseRetry: nat,
    lastId: bytes,
    earliest: nat,               // no transport open before this time
    overdue: bool,               // a poll has seen that time pass: the next one opens
    lastRx: nat,                 // when bytes last arrived
    idAtOpen: bytes,             // of the current connection: the id stored when
    stream: bytes,               // it opened, its bytes, callbacks and messages
    callbacks: seq<Callback>,
    delivered: seq<Message>)

  function Start(cfg: Config): Facts {
    Facts(Idle, false, false, false, false, None, None, Between, None, None, false, 0, 0, 0, cfg.defaultRetry, [],
          0, false, 0, [], [], [], [])
  }

  // ---- vocabulary of the law ----

  function AcceptLine(): bytes {
    ToBytes("Accept: text/event-stream")
  }

  function NoStoreLine(): bytes {
    ToBytes("Cache-Control: no-store")
  }

  function LastEventIdLabel(): (s: bytes)
    ensures |s| == 15
  {
    ToBytes("Last-Event-ID: ")
  }

  function EventStream(): bytes { // text/event-stream
    [116, 101, 120, 116, 47, 101, 118, 101, 110, 116, 45, 115, 116, 114, 101, 97, 109]
  }

  /** The longest id the client stores. */
  const ID_MAX: nat := 128
  const MAX_HEADERS: nat := 16

  function ToBytes(s: string): (b: bytes)
    ensures |b| == |s|
  {
    seq(|s|, i requires 0 <= i < |s| => if s[i] as int < 256 then s[i] as int else 0)
  }

  function ExpectedHeaders(cfg: Config, lastId: bytes): seq<bytes> {
    [AcceptLine(), NoStoreLine()] + (if lastId == [] then [] else [LastEventIdLabel() + lastId]) + cfg.extraHeaders
  }

  /** text/event-stream in any case, alone or before `;` or a space. */
  predicate IsEventStream(ct: bytes) {
    var n := |EventStream()|;
    |ct| >= n && Lowered(ct[..n]) == EventStream() && (|ct| == n || ct[n] == NUL || ct[n] == 59 || ct[n] == SPACE)
  }

  predicate Accepted(cfg: Config, r: Response) {
    r.status == 200 && (cfg.skipContentType || IsEventStream(r.contentType))
  }

  function DefaultRetry(reason: Reason, status: int, retryAfter: int): bool {
    match reason
    case ServerStop => false
    case HttpStatus => status >= 500 || status == 429 || retryAfter >= 0
    case _ => true
  }

  /** The reason and status that a failure at this point must be reported with. */
  predicate Explains(cfg: Config, established: bool, response: Option<Response>, got: Option<Got>,
                     reason: Reason, status: int) {
    if established then
      && status == 0 && got.Some?
      && if got.value.count == 0 then reason == IdleTimeout
         else (got.value.count < 0 || got.value.count > cfg.rxLen) && reason == Transport
    else match response
      case None => reason == Transport && status == 0
      case Some(r) =>
        if r.status == 204 then reason == ServerStop && status == 204
        else if r.status != 200 then reason == HttpStatus && status == r.status
        else reason == BadContentType && status == 200 && !Accepted(cfg, r)
  }

  function RetryAfter(response: Option<Response>, reason: Reason): int32 {
    if reason == HttpStatus && response.Some? then response.value.retryAfter else -1
  }

  /** What the parser may report. */
  predicate WellFormed(caps: Caps, cb: Callback) {
    match cb
    case OnId(v) => |v| < caps.id && NUL !in v && NoTerminator(v)
    case OnRetry(ms) => ms <= UINT32_MAX
    case OnEvent(_, _, data) => |data| < caps.data
    case _ => true
  }

  /** The callback that a parser callback obliges the client to make. */
  function Due(f: Facts, cb: Callback): Option<Event> {
    match cb
    case OnEvent(event, _, data) =>
      Some(OnMessage(Message(if event.Some? then event.value else MESSAGE, data, f.lastId)))
    case OnError(DataTooLarge) => Some(OnInfo(MessageTooLarge))
    case OnError(EventTypeTooLarge) => Some(OnInfo(EventTypeRejected))
    case OnError(EventTypeInvalid) => Some(OnInfo(EventTypeRejected))
    case _ => None
  }

  // ---- the law ----

  /** Events that only a client which may go on can cause. */
  predicate IsActive(e: Event) {
    e.Opened? || e.ReadDone? || e.Fed? || e.OnOpen? || e.OnMessage? || e.OnInfo? || e.Asked? || e.OnFail?
  }

  /** The sleep hint of a poll that ends at time `at`. */
  predicate HintLaw(cfg: Config, f: Facts, hint: nat, at: nat) {
    if f.phase == Closed then hint == UINT32_MAX
    else if f.turn == Worked then hint == if f.got.Some? && f.got.value.count == 0 then cfg.readTimeout else 0
    else
      f.phase == Waiting && hint == TimeLeft(f.earliest, at) < UINT32_MAX
  }

  /** A poll ends with the connection open only if it read, everything read went
      to the parser, and silence has not lasted the idle timeout on a 32-bit clock. */
  predicate StaysOpen(cfg: Config, f: Facts, at: nat) {
    && f.turn == Worked && f.callbacks == StreamTrace(cfg.caps, f.stream)
    && (f.got.Some? ==>
          && f.got.value.count == 0
          && (cfg.idleTimeout == 0 || (at - f.lastRx) % TWO32 < cfg.idleTimeout))
  }

  /** The parser reports what the bytes it was fed cause, in order, and nothing
      while bytes that were read wait to be fed to it. */
  predicate NextInTrace(cfg: Config, f: Facts, cb: Callback) {
    f.turn == Worked && f.got.None? && f.callbacks + [cb] <= StreamTrace(cfg.caps, f.stream)
  }

  predicate Settled(f: Facts) {
    (f.phase == Idle || f.phase == Receiving || f.phase == Waiting || f.phase == Closed) &&
    f.transport == (f.phase == Receiving)
  }

  /** The delay of a retry after `scheduled` others without an event. */
  predicate LawfulDelay(cfg: Config, baseRetry: nat, scheduled: nat, retryAfter: int, delay: nat) {
    Announced(Nominal(baseRetry, cfg.maxRetry, Wrap(scheduled), retryAfter), cfg.jitter, delay)
  }

  /** The decision about a failure: the policy's answer to it, or the default. */
  predicate Decided(cfg: Config, asked: Option<Event>, reason: Reason, status: int, retryAfter: int, retry: bool) {
    var advice := DefaultRetry(reason, status, retryAfter);
    if cfg.hasPolicy then asked == Some(Asked(reason, status, advice, retry))
    else asked.None? && retry == advice
  }

  predicate AllowedFail(cfg: Config, f: Facts, e: Event)
    requires e.OnFail?
  {
    && f.phase == Failing && !f.transport && Explains(cfg, f.established, f.response, f.got, e.reason, e.status)
    && Decided(cfg, f.asked, e.reason, e.status, RetryAfter(f.response, e.reason), e.willRetry)
    && (if e.willRetry then LawfulDelay(cfg, f.baseRetry, f.scheduled, RetryAfter(f.response, e.reason), e.delay)
        else e.delay == 0)
    && (e.reason == IdleTimeout ==> cfg.idleTimeout != 0 && e.at >= f.lastRx + cfg.idleTimeout)
  }

  predicate Allowed(cfg: Config, f: Facts, e: Event) {
    && (IsActive(e) ==> !f.doomed && f.turn != Between)
    && (f.owed.Some? ==> e == f.owed.value)
    && match e
       case PollBegin => Settled(f) && f.turn == Between && (f.doomed ==> f.phase == Closed)
       case PollEnd(hint, at) =>
         && Settled(f) && f.turn != Between && (f.doomed ==> f.phase == Closed)
         && HintLaw(cfg, f, hint, at) && (f.phase == Receiving ==> StaysOpen(cfg, f, at))
         && (f.overdue && f.phase != Closed ==> f.turn == Worked)
       case Opened(at, headers, r) =>
         && (f.phase == Idle || f.phase == Waiting) && !f.transport && f.turn == Begun
         && at >= f.earliest && headers == ExpectedHeaders(cfg, f.lastId) && r == cfg.world.openIn(f.polls)
       case Shut => f.transport && (f.doomed || f.turn == Worked)
       case ReadDone(got) =>
         f.phase == Receiving && f.turn == Begun && got == Filled(cfg.world.readIn(f.polls), cfg.rxLen)
       case Fed(_, chunk) =>
         && f.phase == Receiving && f.got.Some? && 0 < f.got.value.count <= |f.got.value.data|
         && chunk == f.got.value.data[..f.got.value.count]
       case Parsed(cb) =>
         WellFormed(cfg.caps, cb) && (f.phase == Closed || (f.phase == Receiving && NextInTrace(cfg, f, cb)))
       case OnOpen(_, n) =>
         && f.phase == Connecting && f.transport && f.response.Some? && Accepted(cfg, f.response.value)
         && n == Wrap(f.scheduled)
       case OnMessage(_) => f.owed == Some(e)
       case OnInfo(_) => f.owed == Some(e)
       case Asked(reason, status, advice, answer) =>
         && cfg.hasPolicy && f.phase == Failing && !f.transport && f.asked.None?
         && Explains(cfg, f.established, f.response, f.got, reason, status)
         && advice == DefaultRetry(reason, status, RetryAfter(f.response, reason))
         && answer == cfg.world.answerIn(f.calls)
       case OnFail(_, _, _, _, _) => AllowedFail(cfg, f, e)
       case OnClosed => f.phase != Closed && !f.transport && (f.doomed || f.phase == Ending)
       case CloseCalled => f.turn == Between || (f.userRuns && cfg.world.closeIn(f.calls))
       case StopRequested => f.turn == Between || cfg.world.stopIn(f.polls)
  }

  function NextParsed(f: Facts, cb: Callback): Facts {
    if f.phase != Receiving then f.(userRuns := false)
    else
      f.(userRuns := false,
         callbacks := f.callbacks + [cb],
         owed := Due(f, cb),
         lastId := if cb.OnId? then cb.value else f.lastId,
         baseRetry := if cb.OnRetry? then cb.ms else f.baseRetry,
         scheduled := if cb.OnEvent? then 0 else f.scheduled)
  }

  /** How an event changes what may come after it. */
  function Next(f: Facts, e: Event): Facts {
    match e
    case PollBegin => f.(doomed := f.doomed || f.stopped, turn := Begun, polls := f.polls + 1, userRuns := false)
    case Opened(_, _, r) =>
      f.(phase := if r.None? then Failing else Connecting, transport := r.Some?, established := false,
         response := r, asked := None, turn := Worked, got := None, overdue := false,
         userRuns := false)
    case Shut => f.(transport := false, phase := Failing, userRuns := false)
    case ReadDone(got) => f.(doomed := f.doomed || f.stopped, turn := Worked, got := Some(got), userRuns := false)
    case Fed(at, chunk) => f.(lastRx := at, stream := f.stream + chunk, got := None, userRuns := false)
    case Parsed(cb) => NextParsed(f, cb)
    case OnOpen(at, _) =>
      f.(phase := Receiving, established := true, lastRx := at, idAtOpen := f.lastId,
         stream := [], callbacks := [], delivered := [], userRuns := true, calls := f.calls + 1)
    case OnMessage(m) =>
      f.(owed := None, delivered := f.delivered + [m], userRuns := true, calls := f.calls + 1)
    case OnInfo(_) => f.(owed := None, userRuns := true, calls := f.calls + 1)
    case Asked(_, _, _, _) => f.(asked := Some(e), userRuns := true, calls := f.calls + 1)
    case OnFail(_, _, will, delay, at) =>
      if will then f.(phase := Waiting, asked := None, scheduled := f.scheduled + 1, earliest := at + delay,
                      userRuns := true, calls := f.calls + 1)
      else f.(phase := Ending, userRuns := true, calls := f.calls + 1)
    case OnClosed => f.(phase := Closed, userRuns := true, calls := f.calls + 1)
    case CloseCalled => f.(doomed := true, userRuns := false)
    case StopRequested => f.(stopped := true)
    case PollEnd(hint, _) =>
      f.(turn := Between, got := None, overdue := f.phase == Waiting && f.turn == Begun && hint == 0,
         userRuns := false)
  }

  function FactsOf(cfg: Config, run: seq<Event>): Facts {
    if run == [] then Start(cfg)
    else Next(FactsOf(cfg, run[..|run| - 1]), run[|run| - 1])
  }

  predicate Legal(cfg: Config, run: seq<Event>) {
    run == [] ||
    (Legal(cfg, run[..|run| - 1]) && Allowed(cfg, FactsOf(cfg, run[..|run| - 1]), run[|run| - 1]))
  }

  /** The run `b` continues the run `a`, without beginning or ending a poll. */
  ghost predicate Grew(a: seq<Event>, b: seq<Event>) {
    a <= b && forall k :: |a| <= k < |b| ==> !b[k].PollBegin? && !b[k].PollEnd?
  }

  lemma GrewTransitive()
    ensures forall a {:trigger Grew(a, a)} :: Grew(a, a)
    ensures forall a, b, c {:trigger Grew(a, b), Grew(b, c)} :: Grew(a, b) && Grew(b, c) ==> Grew(a, c)
  {
    forall a, b, c | Grew(a, b) && Grew(b, c) ensures Grew(a, c) {
      assert forall k :: |a| <= k < |b| ==> c[k] == b[k];
    }
  }

  /** The run `b` is the run `a` and one whole poll. */
  ghost predicate Polled(a: seq<Event>, b: seq<Event>) {
    && |b| >= |a| + 2 && b[|b| - 1].PollEnd? && a <= b
    && Grew(a + [PollBegin], b[..|b| - 1])
  }

  lemma WholePoll(a: seq<Event>, mid: seq<Event>, e: Event)
    requires Grew(a + [PollBegin], mid) && e.PollEnd?
    ensures Polled(a, mid + [e]) && (mid + [e])[|mid + [e]| - 1] == e
  {
    assert (mid + [e])[..|mid|] == mid;
    assert a == (a + [PollBegin])[..|a|] && mid[..|a|] == a;
  }

  lemma GrewIsPrefix(a: seq<Event>, b: seq<Event>)
    ensures Grew(a, b) || Polled(a, b) ==> a <= b
  {
  }

  lemma StartsLegal(cfg: Config)
    ensures FactsOf(cfg, []) == Start(cfg) && Legal(cfg, [])
  {
  }

  lemma Extend(cfg: Config, run: seq<Event>, e: Event)
    ensures FactsOf(cfg, run + [e]) == Next(FactsOf(cfg, run), e)
    ensures Legal(cfg, run + [e]) == (Legal(cfg, run) && Allowed(cfg, FactsOf(cfg, run), e))
  {
    assert (run + [e])[..|run|] == run;
  }
}
