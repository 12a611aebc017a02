/** The reconnecting client of src/sse_client.c. Its surroundings are arbitrary:
    every call out may let time pass and another task request a stop, and every
    user callback may close the client. The ghost field `run` records what
    happens; each method is proved to keep the run legal. */
module Client {
  import opened Bytes
  import opened Lines
  import opened StreamSpec
  import opened Messages
  import opened Backoff
  import opened WrappingClock
  import opened Run
  import opened StreamLimits
  import opened StreamTheorems
  import opened Parser

  datatype ClientState = IdleState | ConnectingState | OpenState | WaitingRetry | ClosedState

  /** `sizeof id_header` */
  const ID_HEADER_SIZE: nat := ID_MAX + 32

  /** A NULL-terminated array of header lines. */
  function HeaderList(slots: seq<Option<bytes>>): seq<bytes> {
    if slots == [] || slots[0].None? then [] else [slots[0].value] + HeaderList(slots[1..])
  }

  lemma {:induction false} HeaderListIs(slots: seq<Option<bytes>>, hs: seq<bytes>)
    requires |hs| < |slots| && slots[|hs|] == None
    requires forall k :: 0 <= k < |hs| ==> slots[k] == Some(hs[k])
    ensures HeaderList(slots) == hs
    decreases hs
  {
    if hs != [] {
      HeaderListIs(slots[1..], hs[1..]);
    }
  }

  predicate GoodConfig(cfg: Config) {
    && cfg.caps.data >= 2 && 2 <= cfg.caps.id <= ID_MAX + 1 && cfg.caps.event >= 2
    && cfg.rxLen > 0
    && 3 + |cfg.extraHeaders| <= MAX_HEADERS
  }

  method CtIsEventStream(ct: bytes) returns (ok: bool)
    ensures ok == IsEventStream(ct)
  {
    for i := 0 to |EventStream()|
      invariant i <= |ct| && Lowered(ct[..i]) == EventStream()[..i]
    {
      var a := LowerCase(if i < |ct| then ct[i] else NUL);
      if a != EventStream()[i] {
        assert |ct| >= |EventStream()| ==> Lowered(ct[..|EventStream()|])[i] == a;
        return false;
      }
      assert Lowered(ct[..i + 1]) == Lowered(ct[..i]) + [a];
      assert EventStream()[..i + 1] == EventStream()[..i] + [a];
    }
    assert EventStream()[..|EventStream()|] == EventStream();
    var c := if |EventStream()| < |ct| then ct[|EventStream()|] else NUL;
    return c == NUL || c == 59 || c == SPACE;
  }

  class SseClient {
    const cfg: Config
    const parser: SseParser
    const rxBuf: array<byte>
    const lastEventId: array<byte>
    const headers: array<Option<bytes>>

    var state: ClientState
    var stopRequested: bool
    var transportOpen: bool
    var attempts: uint32
    var extraHeaderCount: nat
    var baseRetryMs: uint32
    var retryDeadline: uint32
    var lastRxMs: uint32
    var prng: bv32
    var lastEventIdLen: nat
    var idHeader: bytes

    /** The time, which the program sees modulo 2^32 only. */
    var clock: nat

    /** The user callbacks and the polls so far, by which the surroundings go. */
    var calls: nat
    var polls: nat

    ghost var run: seq<Event>
    ghost var now: Facts

    ghost const Repr: set<object> :=
      {this, parser, parser.dataBuf, parser.idBuf, parser.eventBuf, parser.name, rxBuf, lastEventId, headers}

    // ---- invariants ----

    ghost predicate Recorded()
      reads this`run, this`now
    {
      Legal(cfg, run) && now == FactsOf(cfg, run)
    }

    ghost predicate Apart() {
      && GoodConfig(cfg)
      && parser.GoodBuffers() && parser.MyCaps() == cfg.caps
      && rxBuf.Length == cfg.rxLen && lastEventId.Length == ID_MAX + 1 && headers.Length == MAX_HEADERS + 1
      && rxBuf != parser.dataBuf && rxBuf != parser.idBuf && rxBuf != parser.eventBuf && rxBuf != parser.name
      && lastEventId != parser.dataBuf && lastEventId != parser.idBuf && lastEventId != parser.eventBuf
      && lastEventId != parser.name && lastEventId != rxBuf
    }

    ghost predicate IdStored(id: bytes)
      reads this`lastEventIdLen, lastEventId
    {
      && lastEventId.Length == ID_MAX + 1
      && lastEventIdLen == |id| <= ID_MAX
      && lastEventId[..lastEventIdLen] == id && lastEventId[lastEventIdLen] == NUL
      && NUL !in id && NoTerminator(id)
    }

    ghost predicate PhaseMatches()
      reads this`state, this`now, this`clock, this`retryDeadline
    {
      var p := now.phase;
      && now.transport == (p == Connecting || p == Receiving)
      && (now.transport ==> now.asked.None?)
      && (now.overdue ==> p == Closed || (p == Waiting && state == ConnectingState))
      && match state
         case IdleState => p == Idle && now.earliest == 0
         case ClosedState => p == Closed
         case WaitingRetry =>
           p == Waiting && retryDeadline == Wrap(now.earliest) && now.earliest <= clock + INT32_MAX
         case ConnectingState =>
           || ((p == Idle || p == Waiting) && now.earliest <= clock)
           || ((p == Connecting || p == Failing || p == Ending) && !now.established)
         case OpenState => (p == Receiving || p == Failing || p == Ending) && now.established
    }

    /** The fields say what the run says. */
    ghost predicate Bound()
      reads this`transportOpen, this`stopRequested, this`attempts, this`baseRetryMs, this`lastRxMs, this`clock
      reads this`now, this`extraHeaderCount, this`prng, this`calls, this`polls
    {
      && transportOpen == now.transport
      && stopRequested == now.stopped
      && attempts == Wrap(now.scheduled)
      && baseRetryMs == now.baseRetry
      && lastRxMs == Wrap(now.lastRx) && now.lastRx <= clock
      && now.owed == None
      && extraHeaderCount == |cfg.extraHeaders|
      && prng != 0 && calls == now.calls && polls == now.polls
    }

    /** What holds whenever user code runs. */
    ghost predicate Inv()
      reads this, lastEventId
    {
      Apart() && Recorded() && Bound() && PhaseMatches() && IdStored(now.lastId)
    }

    /** What holds between two calls of the client's functions. */
    ghost predicate Valid()
      reads Repr
    {
      && Inv()
      && Settled(now)
      && (now.doomed ==> now.phase == Closed)
      && (now.phase == Receiving ==> parser.Valid() && parser.fed == now.stream &&
                                     parser.log == parser.base + now.callbacks)
    }

    lemma IsLegal()
      requires Ready()
      ensures Legal(cfg, run)
    {
    }

    /** What holds between two uses of the client. */
    ghost predicate Ready()
      reads Repr
    {
      Valid() && now.turn == Between && now.got.None? && (state == ConnectingState ==> now.overdue)
    }

    /** The event `e` happens. */
    ghost method Record(e: Event)
      requires Recorded() && Allowed(cfg, now, e)
      modifies this`run, this`now
      ensures Recorded() && now == Next(old(now), e) && run == old(run) + [e]
      ensures !e.PollBegin? && !e.PollEnd? ==> Grew(old(run), run)
    {
      Extend(cfg, run, e);
      run, now := run + [e], Next(now, e);
    }

    constructor (cfg: Config, parser: SseParser, rxBuf: array<byte>, clock: nat)
      requires GoodConfig(cfg) && rxBuf.Length == cfg.rxLen
      requires parser.GoodBuffers() && parser.MyCaps() == cfg.caps
      requires rxBuf != parser.dataBuf && rxBuf != parser.idBuf && rxBuf != parser.eventBuf && rxBuf != parser.name
      ensures Ready() && this.cfg == cfg && this.parser == parser && this.rxBuf == rxBuf
      ensures run == [] && state == IdleState && !stopRequested
      ensures fresh(headers) && fresh(lastEventId)
    {
      hide SseParser.Valid, Legal, FactsOf;
      this.cfg, this.parser, this.rxBuf, this.clock := cfg, parser, rxBuf, clock;
      lastEventId := new byte[ID_MAX + 1](i => NUL);
      headers := new Option<bytes>[MAX_HEADERS + 1](i => None);
      state, stopRequested, transportOpen := IdleState, false, false;
      attempts, extraHeaderCount, baseRetryMs := 0, |cfg.extraHeaders|, cfg.defaultRetry;
      retryDeadline, lastRxMs, lastEventIdLen, idHeader, calls, polls := 0, 0, 0, [], 0, 0;
      var seed := Seed(clock % TWO32);
      prng := seed;
      run, now := [], Start(cfg);
      StartsLegal(cfg);
    }

    // ---- events without a law, or with a short one ----

    ghost method RecordStop()
      requires Recorded() && now.owed.None? && (now.turn == Between || cfg.world.stopIn(now.polls))
      modifies this`run, this`now
      ensures Recorded() && now == old(now).(stopped := true)
      ensures run == old(run) + [StopRequested] && Grew(old(run), run)
    {
      hide Recorded, Grew;
      GrewTransitive();
      Record(StopRequested);
    }

    /** May the user close the client now? */
    ghost predicate MayClose()
      reads this`now
    {
      now.turn == Between || (now.userRuns && cfg.world.closeIn(now.calls))
    }

    ghost method RecordClose()
      requires Recorded() && now.owed.None? && MayClose()
      modifies this`run, this`now
      ensures Recorded() && now == old(now).(doomed := true, userRuns := false)
      ensures run == old(run) + [CloseCalled] && Grew(old(run), run)
    {
      hide Recorded, Grew;
      GrewTransitive();
      Record(CloseCalled);
    }

    ghost method RecordShut()
      requires Recorded() && now.owed.None? && now.transport && (now.doomed || now.turn == Worked)
      modifies this`run, this`now
      ensures Recorded() && now == old(now).(transport := false, phase := Failing, userRuns := false)
      ensures run == old(run) + [Shut] && Grew(old(run), run)
    {
      hide Recorded, Grew;
      GrewTransitive();
      Record(Shut);
    }

    ghost method RecordClosed()
      requires Recorded() && now.owed.None? && !now.transport
      requires now.phase != Closed && (now.doomed || now.phase == Ending)
      modifies this`run, this`now
      ensures Recorded() && now == old(now).(phase := Closed, userRuns := true, calls := old(now).calls + 1)
      ensures run == old(run) + [OnClosed] && Grew(old(run), run)
    {
      hide Recorded, Grew;
      GrewTransitive();
      Record(OnClosed);
    }

    ghost method RecordOpened(at: nat, headers: seq<bytes>, response: Option<Response>)
      requires Recorded() && now.owed.None? && !now.doomed && !now.transport
      requires (now.phase == Idle || now.phase == Waiting) && now.turn == Begun && at >= now.earliest
      requires headers == ExpectedHeaders(cfg, now.lastId) && response == cfg.world.openIn(now.polls)
      modifies this`run, this`now
      ensures Recorded() && run == old(run) + [Opened(at, headers, response)] && Grew(old(run), run)
      ensures now == old(now).(phase := if response.None? then Failing else Connecting, transport := response.Some?,
                               established := false, response := response, asked := None, turn := Worked, got := None,
                               overdue := false, userRuns := false)
    {
      hide Recorded, Grew, ExpectedHeaders;
      Record(Opened(at, headers, response));
    }

    ghost method RecordOnOpen()
      requires Recorded() && now.owed.None? && !now.doomed && now.turn == Worked
      requires now.transport && now.phase == Connecting
      requires now.response.Some? && Accepted(cfg, now.response.value) && attempts == Wrap(now.scheduled)
      modifies this`run, this`now
      ensures Recorded() && run == old(run) + [OnOpen(clock, attempts)] && Grew(old(run), run)
      ensures now == old(now).(phase := Receiving, established := true, lastRx := clock, idAtOpen := old(now).lastId,
                               stream := [], callbacks := [], delivered := [], userRuns := true,
                               calls := old(now).calls + 1)
    {
      hide Recorded, Grew, Accepted;
      Record(OnOpen(clock, attempts));
    }

    /** The parser may call this back now. */
    ghost predicate Bridgeable(cb: Callback)
      reads this`now
    {
      WellFormed(cfg.caps, cb) && (now.phase == Closed || (now.phase == Receiving && NextInTrace(cfg, now, cb)))
    }

    /** A parser callback that obliges the client to nothing. */
    ghost method RecordParsed(cb: Callback)
      requires Recorded() && now.owed.None? && Dispatching() && Bridgeable(cb) && Due(now, cb).None?
      modifies this`run, this`now
      ensures Recorded() && now == NextParsed(old(now), cb) && run == old(run) + [Parsed(cb)] && Grew(old(run), run)
      ensures now.owed.None? && Bridged(old(now), now, [cb])
    {
      hide Recorded, Grew, WellFormed, StreamTrace;
      Record(Parsed(cb));
    }

    /** A parser callback after the client has been closed. */
    ghost method RecordIgnored(cb: Callback)
      requires Recorded() && now.owed.None? && now.phase == Closed && Bridgeable(cb)
      modifies this`run, this`now
      ensures Recorded() && now == old(now).(userRuns := false) && run == old(run) + [Parsed(cb)]
      ensures Grew(old(run), run)
      ensures Bridged(old(now), now, [cb])
    {
      hide Recorded, Grew, WellFormed, StreamTrace;
      Record(Parsed(cb));
    }

    /** A parser callback and the user callback that it obliges the client to. */
    ghost method RecordBoth(cb: Callback, e: Event)
      requires Recorded() && now.owed.None? && now.phase == Receiving && !now.doomed && now.turn == Worked
      requires Bridgeable(cb) && Due(now, cb) == Some(e) && (e.OnMessage? || e.OnInfo?)
      modifies this`run, this`now
      ensures Recorded() && run == old(run) + [Parsed(cb)] + [e] && Grew(old(run), run)
      ensures now == NextParsed(old(now), cb).(owed := None, delivered := now.delivered, userRuns := true,
                                              calls := old(now).calls + 1)
    {
      hide Recorded, Grew, WellFormed;
      GrewTransitive();
      Record(Parsed(cb));
      Record(e);
    }

    // ---- the surroundings ----

    /** Something outside runs: time passes, and a stop may be requested. */
    method Outside()
      requires Recorded() && stopRequested == now.stopped && now.owed.None? && polls == now.polls
      modifies this`clock, this`stopRequested, this`run, this`now
      ensures Recorded() && stopRequested == now.stopped
      ensures now == old(now).(stopped := now.stopped) && clock >= old(clock) && Grew(old(run), run)
    {
      hide Recorded, Grew;
      GrewTransitive();
      var d: nat :| d >= 0;
      clock := clock + d;
      var stop: bool := *;
      if stop && cfg.world.stopIn(polls) {
        RecordStop();
        stopRequested := true;
      }
    }

    method NowMs() returns (t: uint32)
      requires Recorded() && stopRequested == now.stopped && now.owed.None? && polls == now.polls
      modifies this`clock, this`stopRequested, this`run, this`now
      ensures Recorded() && stopRequested == now.stopped
      ensures now == old(now).(stopped := now.stopped) && clock >= old(clock) && Grew(old(run), run)
      ensures t == Wrap(clock)
    {
      hide Recorded, Grew;
      GrewTransitive();
      Outside();
      t := clock % TWO32;
    }

    /** `now_ms() + delay` */
    method TimeIn(delay: nat) returns (t: uint32)
      requires Recorded() && stopRequested == now.stopped && now.owed.None? && polls == now.polls
      modifies this`clock, this`stopRequested, this`run, this`now
      ensures Recorded() && stopRequested == now.stopped
      ensures now == old(now).(stopped := now.stopped) && clock >= old(clock) && Grew(old(run), run)
      ensures t == Wrap(clock + delay)
    {
      hide Recorded, Grew;
      t := NowMs();
      t := Add(t, delay, clock);
    }

    /** A user callback runs after its event is recorded: it may close the client. */
    method UserTurn()
      requires Inv() && now.userRuns
      modifies this`clock, this`stopRequested, this`run, this`now, this`transportOpen, this`state, this`calls
      ensures Inv() && clock >= old(clock) && Grew(old(run), run)
      ensures if now.phase == Closed then Gone(old(now), now)
              else && now == old(now).(stopped := now.stopped)
                   && state == old(state) && transportOpen == old(transportOpen)
    {
      hide Recorded, Grew, IdStored, Apart;
      GrewTransitive();
      Outside();
      if cfg.world.closeIn(calls) {
        Close();
      }
    }

    // ---- closing ----

    /** Closing changes nothing that has been read, parsed or delivered. */
    ghost predicate Gone(before: Facts, after: Facts) {
      after == before.(stopped := after.stopped, doomed := after.doomed, transport := false, phase := Closed,
                       userRuns := after.userRuns, calls := after.calls)
    }

    method CloseTransport()
      requires Inv() && (transportOpen ==> now.doomed || now.turn == Worked)
      modifies this`clock, this`stopRequested, this`run, this`now, this`transportOpen
      ensures Inv() && !transportOpen && clock >= old(clock) && Grew(old(run), run)
      ensures now == old(now).(stopped := now.stopped, transport := false,
                               phase := if old(now.transport) then Failing else old(now.phase),
                               userRuns := old(now.userRuns && !now.transport))
    {
      hide Recorded, Grew, IdStored, Apart;
      GrewTransitive();
      if transportOpen {
        RecordShut();
        transportOpen := false;
        Outside();
      }
    }

    method ToClosed()
      requires Inv() && (now.doomed || now.phase == Ending || now.phase == Closed)
      modifies this`clock, this`stopRequested, this`run, this`now, this`transportOpen, this`state, this`calls
      ensures Inv() && Gone(old(now), now) && clock >= old(clock) && Grew(old(run), run)
      decreases state != ClosedState, 0
    {
      hide Recorded, Grew, IdStored, Apart;
      GrewTransitive();
      CloseTransport();
      if state == ClosedState {
        return;
      }
      ReportClosed();
      ClosedTurn();
    }

    method ReportClosed()
      requires Inv() && !transportOpen && state != ClosedState && (now.doomed || now.phase == Ending)
      modifies this`run, this`now, this`state, this`calls
      ensures Inv() && state == ClosedState && now.userRuns && Gone(old(now), now) && Grew(old(run), run)
    {
      hide Recorded, Grew, IdStored, Apart;
      state := ClosedState;
      RecordClosed();
      calls := calls + 1;
    }

    /** on_closed runs: it may call close again. */
    method ClosedTurn()
      requires Inv() && state == ClosedState && now.userRuns
      modifies this`clock, this`stopRequested, this`run, this`now, this`transportOpen, this`state, this`calls
      ensures Inv() && Gone(old(now), now) && clock >= old(clock) && Grew(old(run), run)
      decreases state != ClosedState, 1
    {
      hide Recorded, Grew, IdStored, Apart;
      GrewTransitive();
      Outside();
      if cfg.world.closeIn(calls) {
        RecordClose();
        ToClosed();
      }
    }

    /** sse_client_close, from the polling task or from a callback. */
    method Close()
      requires Inv() && MayClose()
      modifies this`clock, this`stopRequested, this`run, this`now, this`transportOpen, this`state, this`calls
      ensures Inv() && Gone(old(now), now) && state == ClosedState && clock >= old(clock) && Grew(old(run), run)
    {
      hide Recorded, Grew, IdStored, Apart;
      GrewTransitive();
      RecordClose();
      ToClosed();
    }

    /** sse_client_request_stop, from any task. */
    method RequestStop()
      requires Ready()
      modifies this`stopRequested, this`run, this`now
      ensures Ready() && stopRequested && now == old(now).(stopped := true)
      ensures run == old(run) + [StopRequested] && Grew(old(run), run)
    {
      hide Recorded, Grew, IdStored, Apart, SseParser.Valid;
      GrewTransitive();
      RecordStop();
      stopRequested := true;
    }

    // ---- connecting and failing ----

    method PrngNext() returns (x: bv32)
      requires prng != 0
      modifies this`prng
      ensures x == prng == XorShift(old(prng)) != 0
    {
      prng := Draw(prng);
      x := prng;
    }

    method BuildHeaders()
      requires Apart() && IdStored(now.lastId) && extraHeaderCount == |cfg.extraHeaders|
      modifies this`idHeader, headers
      ensures HeaderList(headers[..]) == ExpectedHeaders(cfg, now.lastId)
      ensures |ExpectedHeaders(cfg, now.lastId)| <= MAX_HEADERS
    {
      ghost var expected := ExpectedHeaders(cfg, now.lastId);
      var n := 2;
      headers[0] := Some(AcceptLine());
      headers[1] := Some(NoStoreLine());
      if lastEventIdLen > 0 {
        CStringOf(lastEventId[..], now.lastId);
        idHeader := Printed(LastEventIdLabel() + CString(lastEventId[..]), ID_HEADER_SIZE);
        headers[2] := Some(idHeader);
        n := 3;
      }
      ghost var fixed := n;
      for i := 0 to extraHeaderCount
        invariant n == fixed + i
        invariant forall k :: 0 <= k < n ==> headers[k] == Some(expected[k])
      {
        headers[n] := Some(cfg.extraHeaders[i]);
        n := n + 1;
      }
      headers[n] := None;
      HeaderListIs(headers[..], expected);
    }

    /** The connection has failed and been closed, and this is why. */
    ghost predicate Failed(reason: Reason, status: int, retryAfter: int32)
      reads this`now, this`clock
    {
      && now.phase == Failing && !now.doomed && now.turn == Worked
      && Explains(cfg, now.established, now.response, now.got, reason, status)
      && retryAfter == RetryAfter(now.response, reason)
      && (reason == IdleTimeout ==> cfg.idleTimeout != 0 && clock >= now.lastRx + cfg.idleTimeout)
    }

    ghost method RecordFail(reason: Reason, status: int, retryAfter: int32, retry: bool, delay: nat)
      requires Recorded() && now.owed.None? && !now.transport
      requires Failed(reason, status, retryAfter) && Decided(cfg, now.asked, reason, status, retryAfter, retry)
      requires if retry then LawfulDelay(cfg, now.baseRetry, now.scheduled, retryAfter, delay) else delay == 0
      modifies this`run, this`now
      ensures Recorded() && run == old(run) + [OnFail(reason, status, retry, delay, clock)] && Grew(old(run), run)
      ensures retry ==> now == old(now).(phase := Waiting, asked := None, scheduled := old(now).scheduled + 1,
                                         earliest := clock + delay, userRuns := true, calls := old(now).calls + 1)
      ensures !retry ==> now == old(now).(phase := Ending, userRuns := true, calls := old(now).calls + 1)
    {
      hide Recorded, Grew, Explains, DefaultRetry, RetryAfter, LawfulDelay, Decided;
      GrewTransitive();
      Record(OnFail(reason, status, retry, delay, clock));
    }

    method NextDelay(retryAfter: int32) returns (delay: uint32)
      requires Inv()
      modifies this`prng
      ensures Inv()
      ensures LawfulDelay(cfg, now.baseRetry, now.scheduled, retryAfter, delay) && delay <= INT32_MAX
      ensures prng == if cfg.jitter == 0 then old(prng) else XorShift(old(prng))
      ensures var d := Nominal(now.baseRetry, cfg.maxRetry, Wrap(now.scheduled), retryAfter);
              delay == Min(d + d * (if cfg.jitter == 0 then 0 else prng as nat % (cfg.jitter + 1)) / 100, 2147483647)
    {
      hide Recorded, Grew, IdStored, Apart, PhaseMatches, XorShift, Nominal;
      GrewTransitive();
      var random := 0;
      if cfg.jitter != 0 {
        var x := PrngNext();
        random := x as nat;
      }
      delay := Delay(baseRetryMs, cfg.maxRetry, cfg.jitter, attempts, retryAfter, random);
    }

    /** The announcement of a retry, with its deadline set from the clock. */
    method Schedule(reason: Reason, status: int, retryAfter: int32)
      requires Inv() && Failed(reason, status, retryAfter) && Decided(cfg, now.asked, reason, status, retryAfter, true)
      modifies this`clock, this`stopRequested, this`run, this`now, this`transportOpen, this`state, this`calls
      modifies this`prng, this`attempts, this`retryDeadline
      ensures Inv() && state == WaitingRetry && !now.doomed && clock >= old(clock) && Grew(old(run), run)
      ensures now.turn == Worked && now.got == old(now.got) && now.userRuns
    {
      hide Recorded, Grew, IdStored, Apart, Explains, LawfulDelay, DefaultRetry, RetryAfter, Decided, Wrap;
      hide XorShift, Nominal, Min, Bound;
      GrewTransitive();
      assert state != WaitingRetry;
      var delay := NextDelay(retryAfter);
      SetDeadline(delay);
      Announce(reason, status, retryAfter, delay);
    }

    method SetDeadline(delay: uint32)
      requires Inv() && state != WaitingRetry
      modifies this`clock, this`stopRequested, this`run, this`now, this`retryDeadline
      ensures Inv() && now == old(now).(stopped := now.stopped) && clock >= old(clock) && Grew(old(run), run)
      ensures retryDeadline == Wrap(clock + delay)
    {
      hide Recorded, Grew, IdStored, Apart, Wrap;
      retryDeadline := TimeIn(delay);
    }

    method Announce(reason: Reason, status: int, retryAfter: int32, delay: nat)
      requires Inv() && Failed(reason, status, retryAfter) && Decided(cfg, now.asked, reason, status, retryAfter, true)
      requires LawfulDelay(cfg, now.baseRetry, now.scheduled, retryAfter, delay)
      requires retryDeadline == Wrap(clock + delay) && delay <= INT32_MAX
      modifies this`run, this`now, this`state, this`calls, this`attempts
      ensures Inv() && state == WaitingRetry && !now.doomed && Grew(old(run), run)
      ensures now.turn == Worked && now.got == old(now.got) && now.userRuns
    {
      hide Recorded, Grew, IdStored, Apart, Explains, LawfulDelay, DefaultRetry, RetryAfter, Decided, Wrap;
      assert !now.transport && !now.overdue && now.owed.None?;
      attempts := Add(attempts, 1, now.scheduled);
      state := WaitingRetry;
      calls := calls + 1;
      RecordFail(reason, status, retryAfter, true, delay);
    }

    /** The final decision, which the policy hook may take, or close the client. */
    method Decide(reason: Reason, status: int, retryAfter: int32) returns (retry: bool)
      requires Inv() && Failed(reason, status, retryAfter) && now.asked.None?
      modifies this`clock, this`stopRequested, this`run, this`now, this`transportOpen, this`state, this`calls
      ensures Inv() && clock >= old(clock) && Grew(old(run), run)
      ensures now.turn == Worked
      ensures now.phase == Closed ||
              (&& Failed(reason, status, retryAfter) && Decided(cfg, now.asked, reason, status, retryAfter, retry)
               && now.got == old(now.got))
    {
      hide Recorded, Grew, IdStored, Apart, Explains, DefaultRetry, RetryAfter, Bound, PhaseMatches;
      GrewTransitive();
      retry := DefaultRetry(reason, status, retryAfter);
      if cfg.hasPolicy {
        retry := AskPolicy(reason, status, retryAfter, retry);
      }
    }

    /** The policy hook answers, and may close the client. */
    method AskPolicy(reason: Reason, status: int, retryAfter: int32, advice: bool) returns (answer: bool)
      requires Inv() && Failed(reason, status, retryAfter) && now.asked.None? && cfg.hasPolicy
      requires advice == DefaultRetry(reason, status, retryAfter)
      modifies this`clock, this`stopRequested, this`run, this`now, this`transportOpen, this`state, this`calls
      ensures Inv() && clock >= old(clock) && Grew(old(run), run) && now.turn == Worked
      ensures now.phase == Closed ||
              (&& Failed(reason, status, retryAfter) && now.asked == Some(Asked(reason, status, advice, answer))
               && now.got == old(now.got))
    {
      hide Recorded, Grew, IdStored, Apart, Explains, DefaultRetry, RetryAfter;
      GrewTransitive();
      answer := cfg.world.answerIn(calls);
      RecordAsked(reason, status, advice, answer);
      calls := calls + 1;
      UserTurn();
    }

    ghost method RecordAsked(reason: Reason, status: int, advice: bool, answer: bool)
      requires Recorded() && now.owed.None? && !now.transport && now.phase == Failing && !now.doomed
      requires now.turn == Worked && now.asked.None? && cfg.hasPolicy && answer == cfg.world.answerIn(now.calls)
      requires Explains(cfg, now.established, now.response, now.got, reason, status)
      requires advice == DefaultRetry(reason, status, RetryAfter(now.response, reason))
      modifies this`run, this`now
      ensures Recorded() && run == old(run) + [Asked(reason, status, advice, answer)] && Grew(old(run), run)
      ensures now == old(now).(asked := Some(Asked(reason, status, advice, answer)), userRuns := true,
                               calls := old(now).calls + 1)
    {
      hide Recorded, Grew, Explains, DefaultRetry, RetryAfter;
      Record(Asked(reason, status, advice, answer));
    }

    method Refuse(reason: Reason, status: int, retryAfter: int32)
      requires Inv() && Failed(reason, status, retryAfter) && Decided(cfg, now.asked, reason, status, retryAfter, false)
      modifies this`clock, this`stopRequested, this`run, this`now, this`transportOpen, this`state, this`calls
      ensures Inv() && now.phase == Closed && clock >= old(clock) && Grew(old(run), run) && now.turn == Worked
    {
      hide Recorded, Grew, IdStored, Apart, Decided;
      GrewTransitive();
      RecordFail(reason, status, retryAfter, false, 0);
      calls := calls + 1;
      UserTurn();
      ToClosed();
    }

    method FailConn(reason: Reason, status: int, retryAfter: int32)
      requires Inv() && !now.doomed && now.asked.None? && now.turn == Worked
      requires now.phase == Connecting || now.phase == Receiving || now.phase == Failing
      requires Explains(cfg, now.established, now.response, now.got, reason, status)
      requires retryAfter == RetryAfter(now.response, reason)
      requires reason == IdleTimeout ==> cfg.idleTimeout != 0 && clock >= now.lastRx + cfg.idleTimeout
      modifies this`clock, this`stopRequested, this`run, this`now, this`transportOpen, this`state, this`calls
      modifies this`prng, this`attempts, this`retryDeadline
      ensures Inv() && (state == WaitingRetry || state == ClosedState) && (now.doomed ==> now.phase == Closed)
      ensures now.turn == Worked && (state == WaitingRetry ==> now.got == old(now.got))
      ensures clock >= old(clock) && Grew(old(run), run)
    {
      hide Recorded, Grew, IdStored, Apart, Explains, DefaultRetry, RetryAfter, Decided, Bound, Settled;
      GrewTransitive();
      CloseTransport();
      var retry := Decide(reason, status, retryAfter);
      if state == ClosedState {
        return;
      }
      if !retry {
        Refuse(reason, status, retryAfter);
        return;
      }
      Schedule(reason, status, retryAfter);
      UserTurn();
    }

    /** The transport's open: it may fail, or report any response. */
    method TransportOpen() returns (response: Option<Response>)
      requires Inv() && !now.doomed && state == ConnectingState && (now.phase == Idle || now.phase == Waiting)
      requires now.turn == Begun
      requires HeaderList(headers[..]) == ExpectedHeaders(cfg, now.lastId)
      modifies this`clock, this`stopRequested, this`run, this`now, this`transportOpen
      ensures Inv() && state == ConnectingState && clock >= old(clock) && Grew(old(run), run)
      ensures !now.doomed && !now.established && now.asked.None? && now.response == response
      ensures now.turn == Worked && now.got.None?
      ensures now.phase == if response.None? then Failing else Connecting
    {
      hide Recorded, IdStored, Apart, Grew, ExpectedHeaders, HeaderList;
      GrewTransitive();
      ghost var at := clock;
      Outside();
      response := cfg.world.openIn(polls);
      RecordOpened(at, HeaderList(headers[..]), response);
      transportOpen := response.Some?;
    }

    method TryOpen() returns (response: Option<Response>)
      requires Inv() && !now.doomed && now.turn == Begun && (now.phase == Idle || now.phase == Waiting)
      requires state == IdleState || state == ConnectingState
      modifies this`clock, this`stopRequested, this`run, this`now, this`transportOpen, this`state, this`calls
      modifies this`idHeader, headers
      ensures Inv() && state == ConnectingState && clock >= old(clock) && Grew(old(run), run)
      ensures !now.doomed && !now.established && now.asked.None? && now.response == response
      ensures now.turn == Worked && now.got.None?
      ensures now.phase == if response.None? then Failing else Connecting
    {
      hide Recorded, Grew, ExpectedHeaders, HeaderList;
      GrewTransitive();
      state := ConnectingState;
      BuildHeaders();
      response := TransportOpen();
    }

    method DoConnect()
      requires Inv() && !now.doomed && now.turn == Begun && (now.phase == Idle || now.phase == Waiting)
      requires state == IdleState || state == ConnectingState
      modifies Repr
      ensures Valid() && state != IdleState && state != ConnectingState
      ensures now.turn == Worked && (state != ClosedState ==> now.got.None?)
      ensures clock >= old(clock) && Grew(old(run), run)
    {
      hide Recorded, Grew, IdStored, Apart;
      GrewTransitive();
      var response := TryOpen();
      if response.None? {
        FailConn(Transport, 0, -1);
      } else {
        Answered(response.value);
      }
    }

    method Answered(r: Response)
      requires Inv() && !now.doomed && now.phase == Connecting && now.response == Some(r)
      requires now.turn == Worked && now.got.None?
      modifies Repr
      ensures Valid() && state != IdleState && state != ConnectingState
      ensures now.turn == Worked && (state != ClosedState ==> now.got.None?)
      ensures clock >= old(clock) && Grew(old(run), run)
    {
      hide Recorded, IdStored, Grew, IsEventStream;
      GrewTransitive();
      if r.status == 204 {
        FailConn(ServerStop, 204, -1);
        return;
      }
      if r.status != 200 {
        FailConn(HttpStatus, r.status, r.retryAfter);
        return;
      }
      if !cfg.skipContentType {
        var ok := CtIsEventStream(r.contentType);
        if !ok {
          FailConn(BadContentType, 200, -1);
          return;
        }
      }
      StartStream();
    }

    /** A stream begins: with a parser that knows nothing of the last one. */
    method StartStream()
      requires Inv() && !now.doomed && now.phase == Connecting && now.response.Some?
      requires now.turn == Worked && now.got.None? && Accepted(cfg, now.response.value)
      modifies Repr
      ensures Valid() && (state == OpenState || state == ClosedState) && now.turn == Worked
      ensures state != ClosedState ==> now.got.None?
      ensures clock >= old(clock) && Grew(old(run), run)
    {
      hide Recorded, IdStored, Grew, Accepted, SseParser.Valid, Bound;
      parser.Reset();
      assert parser.log == parser.base + [];
      hide Apart;
      Establish();
    }

    /** The connection is open: tell the user. */
    method Establish()
      requires Inv() && !now.doomed && now.turn == Worked && now.phase == Connecting && now.response.Some?
      requires Accepted(cfg, now.response.value)
      modifies this`clock, this`stopRequested, this`run, this`now, this`transportOpen, this`state
      modifies this`calls, this`lastRxMs
      ensures Inv() && clock >= old(clock) && Grew(old(run), run)
      ensures now.turn == Worked
      ensures state == ClosedState ||
              (&& now.phase == Receiving && !now.doomed && now.stream == [] && now.callbacks == []
               && now.got == old(now.got))
    {
      hide Recorded, IdStored, Apart, Grew, Accepted, Bound;
      GrewTransitive();
      AcceptResponse();
      UserTurn();
    }

    method AcceptResponse()
      requires Inv() && !now.doomed && now.turn == Worked && now.phase == Connecting && now.response.Some?
      requires Accepted(cfg, now.response.value)
      modifies this`clock, this`stopRequested, this`run, this`now, this`state, this`calls, this`lastRxMs
      ensures Inv() && clock >= old(clock) && Grew(old(run), run)
      ensures now.phase == Receiving && !now.doomed && now.stream == [] && now.callbacks == []
      ensures now.turn == Worked && now.got == old(now.got) && now.userRuns
    {
      hide Recorded, IdStored, Apart, Grew, Accepted;
      GrewTransitive();
      lastRxMs := NowMs();
      ReportOpen();
    }

    /** The bytes of this connection count from now on. */
    method ReportOpen()
      requires Apart() && Recorded() && IdStored(now.lastId) && lastRxMs == Wrap(clock)
      requires !now.doomed && now.turn == Worked && now.phase == Connecting && now.transport && now.asked.None?
      requires now.response.Some? && Accepted(cfg, now.response.value) && !now.overdue
      requires transportOpen && stopRequested == now.stopped && attempts == Wrap(now.scheduled)
      requires baseRetryMs == now.baseRetry && now.owed == None && extraHeaderCount == |cfg.extraHeaders|
      requires prng != 0 && calls == now.calls && polls == now.polls
      modifies this`run, this`now, this`state, this`calls
      ensures Inv() && Grew(old(run), run)
      ensures now.phase == Receiving && !now.doomed && now.stream == [] && now.callbacks == []
      ensures now.turn == Worked && now.got == old(now.got) && now.userRuns
    {
      hide Recorded, IdStored, Apart, Grew, Accepted, Wrap;
      state := OpenState;
      RecordOnOpen();
      calls := calls + 1;
    }

    // ---- from the parser to the user ----

    /** Where some parser callbacks lead: all of them reach the user, unless the
        client is closed, and then only those before. */
    ghost predicate Bridged(before: Facts, after: Facts, cbs: seq<Callback>) {
      && after.turn == before.turn && after.stream == before.stream && after.got == before.got
      && before.callbacks <= after.callbacks <= before.callbacks + cbs
      && (before.phase == Closed ==> after.callbacks == before.callbacks)
      && (|| after.phase == Closed
          || (&& after.phase == before.phase == Receiving && !after.doomed && !before.doomed
              && after.callbacks == before.callbacks + cbs))
    }

    /** May the parser's callbacks be bridged now? */
    ghost predicate Dispatching()
      reads this`now
    {
      (now.phase == Receiving && !now.doomed && now.turn == Worked) || now.phase == Closed
    }

    /** `memcpy(last_event_id, id, len + 1)` */
    method StoreId(v: bytes)
      requires lastEventId.Length == ID_MAX + 1 && |v| <= ID_MAX && NUL !in v && NoTerminator(v)
      modifies this`lastEventIdLen, lastEventId
      ensures IdStored(v)
    {
      forall k | 0 <= k < |v| {
        lastEventId[k] := v[k];
      }
      lastEventId[|v|] := NUL;
      lastEventIdLen := |v|;
      assert lastEventId[..|v|] == v;
    }

    method BridgeOnId(v: bytes)
      requires Inv() && Dispatching() && Bridgeable(OnId(v))
      modifies this`run, this`now, this`lastEventIdLen, lastEventId
      ensures Inv() && Bridged(old(now), now, [OnId(v)]) && Grew(old(run), run)
    {
      hide Recorded, Grew, IdStored, Bridged, NextInTrace;
      RecordParsed(OnId(v));
      if state != OpenState {
        return;
      }
      if |v| <= ID_MAX {
        StoreId(v);
      }
    }

    method BridgeOnRetry(ms: nat)
      requires Inv() && Dispatching() && Bridgeable(OnRetry(ms))
      modifies this`run, this`now, this`baseRetryMs
      ensures Inv() && Bridged(old(now), now, [OnRetry(ms)]) && Grew(old(run), run)
    {
      hide Recorded, IdStored, Apart, Grew, Bridged, NextInTrace;
      RecordParsed(OnRetry(ms));
      if state != OpenState {
        return;
      }
      baseRetryMs := ms;
    }

    /** The message as the user reads it: its id is a C string. */
    method BridgeOnEvent(event: Option<bytes>, id: Option<bytes>, data: bytes)
      requires Inv() && Dispatching() && Bridgeable(OnEvent(event, id, data))
      modifies this`clock, this`stopRequested, this`run, this`now, this`transportOpen, this`state
      modifies this`calls, this`attempts
      ensures Inv() && Bridged(old(now), now, [OnEvent(event, id, data)])
      ensures clock >= old(clock) && Grew(old(run), run)
    {
      hide Recorded, Apart, Grew, WellFormed, Bridged, Bridgeable;
      GrewTransitive();
      if state != OpenState {
        RecordIgnored(OnEvent(event, id, data));
        return;
      }
      CStringOf(lastEventId[..], now.lastId);
      hide IdStored;
      var m := Message(if event.Some? then event.value else MESSAGE, data, CString(lastEventId[..]));
      Tell(OnEvent(event, id, data), OnMessage(m));
    }

    /** The user is told about a parser callback, and has a turn. */
    method Tell(cb: Callback, e: Event)
      requires Inv() && now.phase == Receiving && Dispatching() && Bridgeable(cb)
      requires Due(now, cb) == Some(e) && (e.OnMessage? || e.OnInfo?)
      modifies this`clock, this`stopRequested, this`run, this`now, this`transportOpen, this`state
      modifies this`calls, this`attempts
      ensures Inv() && Bridged(old(now), now, [cb]) && clock >= old(clock) && Grew(old(run), run)
    {
      hide Recorded, Apart, Grew, WellFormed, IdStored, Bridged, Gone, Bridgeable, Due, NextParsed, Bound, PhaseMatches;
      GrewTransitive();
      Report(cb, e);
      ghost var told := now;
      UserTurn();
      Told(old(now), told, now, cb);
    }

    /** A dispatched event also ends the series of failures. */
    method Report(cb: Callback, e: Event)
      requires Inv() && now.phase == Receiving && Dispatching() && Bridgeable(cb)
      requires Due(now, cb) == Some(e) && (e.OnMessage? || e.OnInfo?)
      modifies this`run, this`now, this`calls, this`attempts
      ensures Inv() && Grew(old(run), run)
      ensures now == NextParsed(old(now), cb).(owed := None, delivered := now.delivered, userRuns := true,
                                              calls := old(now).calls + 1)
    {
      hide Recorded, Apart, Grew, WellFormed, IdStored, Bridgeable;
      if cb.OnEvent? {
        attempts := 0;
      }
      RecordBoth(cb, e);
      calls := calls + 1;
    }

    /** The user has been told about a parser callback, and had a turn. */
    lemma Told(before: Facts, told: Facts, after: Facts, cb: Callback)
      requires before.phase == Receiving && !before.doomed
      requires told == NextParsed(before, cb).(owed := None, delivered := told.delivered, userRuns := true,
                                              calls := before.calls + 1)
      requires if after.phase == Closed then Gone(told, after) else after == told.(stopped := after.stopped)
      ensures Bridged(before, after, [cb])
    {
      hide Due;
    }

    method BridgeOnError(err: Error)
      requires Inv() && Dispatching() && Bridgeable(OnError(err))
      modifies this`clock, this`stopRequested, this`run, this`now, this`transportOpen, this`state
      modifies this`calls, this`attempts
      ensures Inv() && Bridged(old(now), now, [OnError(err)])
      ensures clock >= old(clock) && Grew(old(run), run)
    {
      hide Recorded, IdStored, Apart, Grew, WellFormed, Bridged, Bridgeable;
      GrewTransitive();
      if state != OpenState {
        RecordIgnored(OnError(err));
        return;
      }
      var info;
      if err == DataTooLarge {
        info := MessageTooLarge;
      } else if err == EventTypeTooLarge || err == EventTypeInvalid {
        info := EventTypeRejected;
      } else {
        RecordParsed(OnError(err));
        return;
      }
      Tell(OnError(err), OnInfo(info));
    }

    method Bridge(cb: Callback)
      requires Inv() && Dispatching() && Bridgeable(cb)
      modifies this, lastEventId
      ensures Inv() && Bridged(old(now), now, [cb]) && clock >= old(clock) && Grew(old(run), run)
    {
      hide Recorded, IdStored, Apart, Grew, Bridged, Bridgeable, Bound, PhaseMatches, Dispatching;
      match cb {
        case OnId(v) => BridgeOnId(v);
        case OnRetry(ms) => BridgeOnRetry(ms);
        case OnEvent(event, id, data) => BridgeOnEvent(event, id, data);
        case OnError(err) => BridgeOnError(err);
      }
    }

    method Dispatch(out: seq<Callback>)
      requires Inv() && Dispatching() && now.phase == Receiving && AllWellFormed(cfg.caps, out)
      requires now.got.None? && now.callbacks + out == StreamTrace(cfg.caps, now.stream)
      modifies this, lastEventId
      ensures Inv() && Bridged(old(now), now, out) && clock >= old(clock) && Grew(old(run), run)
    {
      hide Recorded, IdStored, Apart, Grew, WellFormed, Bridgeable, StreamTrace;
      GrewTransitive();
      for i := 0 to |out|
        invariant Inv() && Dispatching() && Bridged(old(now), now, out[..i])
        invariant clock >= old(clock) && Grew(old(run), run)
      {
        MayBridge(old(now), out, i);
        ghost var before := now;
        Bridge(out[i]);
        BridgedOneMore(old(now), before, now, out, i);
      }
      assert out[..|out|] == out;
    }

    lemma MayBridge(before: Facts, out: seq<Callback>, i: nat)
      requires i < |out| && Bridged(before, now, out[..i]) && AllWellFormed(cfg.caps, out) && Dispatching()
      requires before.got.None? && before.callbacks + out == StreamTrace(cfg.caps, before.stream)
      ensures Bridgeable(out[i])
    {
      hide StreamTrace, WellFormed;
      assert before.callbacks + out[..i] + [out[i]] == (before.callbacks + out)[..|before.callbacks| + i + 1];
    }

    lemma BridgedOneMore(before: Facts, mid: Facts, after: Facts, out: seq<Callback>, i: nat)
      requires i < |out| && Bridged(before, mid, out[..i]) && Bridged(mid, after, [out[i]])
      requires before.phase == Receiving
      ensures Bridged(before, after, out[..i + 1])
    {
      assert out[..i + 1] == out[..i] + [out[i]];
      ConcatAssociates(before.callbacks, out[..i], [out[i]]);
    }

    // ---- polling ----

    /** The transport's read: it fills the buffer as it likes and returns a byte
        count, a timeout, or an end. */
    method TransportRead() returns (r: int)
      requires Inv() && now.phase == Receiving && !now.doomed && now.turn == Begun
      modifies this`clock, this`stopRequested, this`run, this`now, rxBuf
      ensures Inv() && clock >= old(clock) && Grew(old(run), run)
      ensures now == old(now).(stopped := now.stopped, doomed := now.stopped, turn := Worked,
                               got := Some(Got(r, rxBuf[..])), userRuns := false)
    {
      hide Recorded, Grew, IdStored, Filled;
      GrewTransitive();
      Outside();
      r := FillBuffer();
      RecordRead(Got(r, rxBuf[..]));
    }

    method FillBuffer() returns (r: int)
      requires rxBuf.Length == cfg.rxLen
      modifies rxBuf
      ensures Got(r, rxBuf[..]) == Filled(cfg.world.readIn(polls), cfg.rxLen)
    {
      var got := Filled(cfg.world.readIn(polls), cfg.rxLen);
      for i := 0 to rxBuf.Length
        invariant forall k :: 0 <= k < i ==> rxBuf[k] == got.data[k]
      {
        rxBuf[i] := got.data[i];
      }
      r := got.count;
      assert rxBuf[..] == got.data;
    }

    ghost method RecordRead(got: Got)
      requires Recorded() && now.owed.None? && !now.doomed && now.phase == Receiving && now.turn == Begun
      requires got == Filled(cfg.world.readIn(now.polls), cfg.rxLen)
      modifies this`run, this`now
      ensures Recorded() && run == old(run) + [ReadDone(got)] && Grew(old(run), run)
      ensures now == old(now).(doomed := old(now).stopped, turn := Worked, got := Some(got), userRuns := false)
    {
      hide Recorded, Grew, Filled;
      Record(ReadDone(got));
    }

    ghost method RecordFed(chunk: bytes)
      requires Recorded() && now.owed.None? && !now.doomed
      requires now.phase == Receiving && now.turn == Worked && now.got.Some?
      requires var g := now.got.value; 0 < g.count <= |g.data| && chunk == g.data[..g.count]
      modifies this`run, this`now
      ensures Recorded() && now == old(now).(lastRx := clock, stream := old(now).stream + chunk, got := None,
                                             userRuns := false)
      ensures run == old(run) + [Fed(clock, chunk)] && Grew(old(run), run)
    {
      hide Recorded, Grew;
      Record(Fed(clock, chunk));
    }

    /** While receiving, the bridged callbacks are those of the bytes received. */
    lemma Faithful()
      requires Valid() && now.phase == Receiving
      ensures now.callbacks == StreamTrace(cfg.caps, now.stream)
    {
      parser.LogIsTrace();
      var t := StreamTrace(cfg.caps, now.stream);
      assert now.callbacks == (parser.base + now.callbacks)[|parser.base|..];
      assert t == (parser.base + t)[|parser.base|..];
    }

    /** The parser takes the bytes read; `out` is what it calls back. */
    method FeedParser(r: nat) returns (out: seq<Callback>)
      requires Apart() && parser.Valid() && r <= rxBuf.Length
      modifies parser, parser.dataBuf, parser.idBuf, parser.eventBuf, parser.name
      ensures parser.Valid() && parser.fed == old(parser.fed) + rxBuf[..r]
      ensures parser.log == old(parser.log) + out && parser.base == old(parser.base)
      ensures StreamTrace(cfg.caps, parser.fed) == StreamTrace(cfg.caps, old(parser.fed)) + out
      ensures AllWellFormed(cfg.caps, out)
    {
      hide SseParser.Valid, StreamTrace, WellFormed;
      parser.LogIsTrace();
      var k := |parser.log|;
      ghost var before, chunk := StreamTrace(cfg.caps, parser.fed), rxBuf[..r];
      TraceGrows(cfg.caps, parser.fed, chunk);
      parser.Feed(rxBuf, r);
      out := parser.log[k..];
      TraceWellFormed(cfg.caps, parser.fed);
      ghost var after := StreamTrace(cfg.caps, parser.fed);
      assert after == before + after[|before|..];
      assert out == after[|before|..];
    }

    /** The bytes have arrived: the idle timeout starts over. */
    method TakeIn(r: nat)
      requires Inv() && Dispatching() && now.phase == Receiving && 0 < r <= rxBuf.Length
      requires now.got == Some(Got(r, rxBuf[..]))
      modifies this`clock, this`stopRequested, this`run, this`now, this`lastRxMs
      ensures Inv() && now.phase == Receiving && !now.doomed && clock >= old(clock) && Grew(old(run), run)
      ensures now.stream == old(now.stream) + rxBuf[..r] && now.callbacks == old(now.callbacks)
      ensures now.got.None? && now.turn == old(now.turn)
    {
      hide Recorded, Grew, IdStored, Apart;
      GrewTransitive();
      assert rxBuf[..][..r] == rxBuf[..r];
      lastRxMs := NowMs();
      RecordFed(rxBuf[..r]);
    }

    /** The bytes read go to the parser, and its callbacks to the user: all of them,
        or those up to the one in which the client is closed. */
    method Consume(r: nat)
      requires Valid() && Dispatching() && now.phase == Receiving && 0 < r <= rxBuf.Length
      requires now.got == Some(Got(r, rxBuf[..]))
      modifies Repr
      ensures Valid() && (now.phase == Receiving || now.phase == Closed) && now.turn == Worked && now.got.None?
      ensures now.stream == old(now.stream + rxBuf[..r])
      ensures old(now.callbacks) <= now.callbacks <= StreamTrace(cfg.caps, now.stream)
      ensures now.phase == Receiving ==> now.callbacks == StreamTrace(cfg.caps, now.stream)
      ensures clock >= old(clock) && Grew(old(run), run)
    {
      hide Recorded, Grew, IdStored, SseParser.Valid, AllWellFormed, StreamTrace;
      GrewTransitive();
      Faithful();
      TakeIn(r);
      var out := FeedParser(r);
      Dispatch(out);
      ConcatAssociates(parser.base, old(now.callbacks), out);
    }

    function Hint(): (h: uint32)
      reads this`state
    {
      if state == ClosedState then UINT32_MAX else 0
    }

    /** What a poll owes when it ends. */
    ghost predicate Done(hint: nat)
      reads this`now, this`clock, this`state
    {
      && now.turn != Between && (now.overdue && now.phase != Closed ==> now.turn == Worked)
      && (state == ConnectingState ==> now.phase == Waiting && now.turn == Begun && hint == 0)
      && (now.phase == Waiting && now.turn == Begun && hint == 0 ==> state == ConnectingState)
      && HintLaw(cfg, now, hint, clock) && (now.phase == Receiving ==> StaysOpen(cfg, now, clock))
    }

    method PollOpen() returns (hint: uint32)
      requires Valid() && now.phase == Receiving && !now.doomed && now.turn == Begun
      modifies Repr
      ensures Valid() && Done(hint) && clock >= old(clock) && Grew(old(run), run)
      ensures state == OpenState || state == WaitingRetry || state == ClosedState
    {
      hide Recorded, Grew, IdStored, SseParser.Valid, StreamTrace, Wrap, Done;
      GrewTransitive();
      var r := TransportRead();
      if stopRequested {
        CloseStopped();
        return UINT32_MAX;
      }
      if r > 0 {
        hint := Took(r);
        return;
      }
      if r == 0 {
        hint := Silence();
        return;
      }
      hint := Lost();
    }

    /** A stop was requested while the client was reading. */
    method CloseStopped()
      requires Inv() && now.doomed && now.turn == Worked
      modifies this`clock, this`stopRequested, this`run, this`now, this`transportOpen, this`state, this`calls
      ensures Valid() && Done(UINT32_MAX) && state == ClosedState && clock >= old(clock) && Grew(old(run), run)
    {
      hide Recorded, Grew, IdStored, SseParser.Valid, StreamTrace, Wrap, Apart;
      ToClosed();
    }

    /** The transport reports the end, or an error. */
    method Lost() returns (hint: uint32)
      requires Inv() && now.phase == Receiving && !now.doomed && now.turn == Worked
      requires now.got.Some? && now.got.value.count < 0
      modifies this`clock, this`stopRequested, this`run, this`now, this`transportOpen, this`state, this`calls
      modifies this`prng, this`attempts, this`retryDeadline
      ensures Valid() && Done(hint) && clock >= old(clock) && Grew(old(run), run)
      ensures state == WaitingRetry || state == ClosedState
    {
      hide Recorded, Grew, IdStored, SseParser.Valid, StreamTrace, Wrap, Apart;
      FailConn(Transport, 0, -1);
      return Hint();
    }

    /** The transport reports `r` bytes, perhaps more than it was given room for. */
    method Took(r: nat) returns (hint: uint32)
      requires Valid() && now.phase == Receiving && !now.doomed && now.turn == Worked && r > 0
      requires now.got == Some(Got(r, rxBuf[..]))
      modifies Repr
      ensures Valid() && Done(hint) && clock >= old(clock) && Grew(old(run), run)
      ensures state == OpenState || state == WaitingRetry || state == ClosedState
    {
      hide Recorded, Grew, IdStored, SseParser.Valid, StreamTrace;
      GrewTransitive();
      if r > rxBuf.Length {
        FailConn(Transport, 0, -1);
      } else {
        Consume(r);
        if now.phase == Receiving {
          Faithful();
        }
      }
      return Hint();
    }

    /** No bytes came within the read timeout. */
    method Silence() returns (hint: uint32)
      requires Valid() && now.phase == Receiving && !now.doomed && now.turn == Worked
      requires now.got == Some(Got(0, rxBuf[..]))
      modifies Repr
      ensures Valid() && Done(hint) && clock >= old(clock) && Grew(old(run), run)
      ensures state == OpenState || state == WaitingRetry || state == ClosedState
    {
      hide Recorded, Grew, IdStored, SseParser.Valid, StreamTrace, Apart, Accepted;
      GrewTransitive();
      Faithful();
      var idle := IsIdle();
      if idle {
        hint := TimeOut();
        return;
      }
      return cfg.readTimeout;
    }

    /** The silence has lasted too long. */
    method TimeOut() returns (hint: uint32)
      requires Inv() && now.phase == Receiving && !now.doomed && now.turn == Worked
      requires now.got.Some? && now.got.value.count == 0
      requires cfg.idleTimeout != 0 && clock >= now.lastRx + cfg.idleTimeout
      modifies this`clock, this`stopRequested, this`run, this`now, this`transportOpen, this`state, this`calls
      modifies this`prng, this`attempts, this`retryDeadline
      ensures Valid() && Done(hint) && clock >= old(clock) && Grew(old(run), run)
      ensures state == WaitingRetry || state == ClosedState
    {
      hide Recorded, Grew, IdStored, SseParser.Valid, StreamTrace, Wrap, Apart;
      FailConn(IdleTimeout, 0, -1);
      if state == ClosedState {
        return UINT32_MAX;
      }
      return cfg.readTimeout;
    }

    /** Have no bytes arrived for the idle timeout? Never true too early. */
    method IsIdle() returns (idle: bool)
      requires Recorded() && Bound()
      modifies this`clock, this`stopRequested, this`run, this`now
      ensures Recorded() && stopRequested == now.stopped
      ensures now == old(now).(stopped := now.stopped) && clock >= old(clock) && Grew(old(run), run)
      ensures idle ==> cfg.idleTimeout != 0 && clock >= now.lastRx + cfg.idleTimeout
      ensures idle <==> cfg.idleTimeout != 0 && (clock - now.lastRx) % TWO32 >= cfg.idleTimeout
    {
      hide Recorded, Grew, Wrap, UnsignedDifference;
      GrewTransitive();
      if cfg.idleTimeout == 0 {
        return false;
      }
      var t := NowMs();
      ElapsedReads(now.lastRx, clock);
      return UnsignedDifference(t, lastRxMs) >= cfg.idleTimeout;
    }

    /** The wait for a retry: exactly to its deadline, wherever the clock wraps. */
    method PollWaiting() returns (hint: uint32)
      requires Inv() && state == WaitingRetry
      modifies this`clock, this`stopRequested, this`run, this`now, this`state
      ensures Inv() && now == old(now).(stopped := now.stopped) && clock >= old(clock) && Grew(old(run), run)
      ensures hint == TimeLeft(now.earliest, clock) < UINT32_MAX
      ensures state == if hint == 0 then ConnectingState else WaitingRetry
    {
      hide Recorded, Grew, IdStored, Apart, Wrap, SignedDifference, TimeLeft;
      var t := NowMs();
      DeadlineReads(now.earliest, clock);
      var remain := Remaining(t);
      if remain <= 0 {
        state := ConnectingState;
        return 0;
      }
      return remain;
    }

    method Remaining(t: uint32) returns (remain: int)
      ensures remain == SignedDifference(retryDeadline, t) <= INT32_MAX
    {
      remain := SignedDifference(retryDeadline, t);
    }

    ghost method RecordPollBegin()
      requires Recorded() && now.owed.None? && Settled(now) && now.turn == Between
      requires now.doomed ==> now.phase == Closed
      modifies this`run, this`now
      ensures Recorded() && run == old(run) + [PollBegin]
      ensures now == old(now).(doomed := old(now).doomed || old(now).stopped, turn := Begun,
                               polls := old(now).polls + 1, userRuns := false)
    {
      hide Recorded, Grew;
      Record(PollBegin);
    }

    ghost method RecordPollEnd(hint: nat)
      requires Recorded() && now.owed.None? && Settled(now) && (now.doomed ==> now.phase == Closed) && Done(hint)
      modifies this`run, this`now
      ensures Recorded()
      ensures now == old(now).(turn := Between, got := None,
                               overdue := old(now).phase == Waiting && old(now).turn == Begun && hint == 0,
                               userRuns := false)
      ensures run == old(run) + [PollEnd(hint, clock)]
    {
      hide Recorded, Grew, HintLaw, StaysOpen;
      Record(PollEnd(hint, clock));
    }

    /** Connect, now. */
    method PollConnect() returns (hint: uint32)
      requires Inv() && !now.doomed && now.turn == Begun && (now.phase == Idle || now.phase == Waiting)
      requires state == IdleState || state == ConnectingState
      modifies Repr
      ensures Valid() && Done(hint) && clock >= old(clock) && Grew(old(run), run)
      ensures state != IdleState && state != ConnectingState
    {
      hide Recorded, Grew, IdStored, Apart, SseParser.Valid, StreamTrace;
      DoConnect();
      if now.phase == Receiving {
        Faithful();
      }
      hint := Hint();
    }

    /** The step of the state the client is in. */
    method Step() returns (hint: uint32)
      requires Valid() && (now.doomed ==> now.phase == Closed) && now.turn == Begun && now.got.None?
      modifies Repr
      ensures Valid() && Done(hint) && clock >= old(clock) && Grew(old(run), run)
      ensures old(state) == ClosedState ==> state == ClosedState
      ensures old(state) == IdleState || old(state) == ConnectingState ==>
                state != IdleState && state != ConnectingState
      ensures old(state) == WaitingRetry ==>
                && hint == TimeLeft(old(now.earliest), clock)
                && state == if hint == 0 then ConnectingState else WaitingRetry
    {
      hide Recorded, Grew, IdStored, Apart, SseParser.Valid, StreamTrace;
      GrewTransitive();
      match state {
        case ClosedState =>
          hint := UINT32_MAX;
        case IdleState =>
          hint := PollConnect();
        case ConnectingState =>
          hint := PollConnect();
        case WaitingRetry =>
          hint := PollWaiting();
        case OpenState =>
          hint := PollOpen();
      }
    }

    method StartPoll()
      requires Ready()
      modifies this`run, this`now, this`polls
      ensures Inv() && Settled(now) && run == old(run) + [PollBegin] && stopRequested == old(now).stopped
      ensures now == old(now).(doomed := old(now).doomed || old(now).stopped, turn := Begun,
                               polls := old(now).polls + 1, userRuns := false)
    {
      hide Recorded, IdStored, Apart, SseParser.Valid;
      RecordPollBegin();
      polls := polls + 1;
    }

    method BeginPoll()
      requires Ready()
      modifies Repr
      ensures Valid() && clock >= old(clock) && Grew(old(run) + [PollBegin], run)
      ensures (now.doomed ==> now.phase == Closed) && now.earliest == old(now.earliest)
      ensures now.turn == Begun && now.got.None?
      ensures state == if old(stopRequested) then ClosedState else old(state)
    {
      hide Recorded, Grew, IdStored, Apart, SseParser.Valid, StreamTrace, Bound;
      GrewTransitive();
      StartPoll();
      if stopRequested && state != ClosedState {
        ToClosed();
      }
    }

    /** sse_client_poll: one step, or the end if a stop was requested before. */
    method Poll() returns (hint: uint32)
      requires Ready()
      modifies Repr
      ensures Ready() && clock >= old(clock) && Polled(old(run), run) && run[|run| - 1] == PollEnd(hint, clock)
      ensures state == ClosedState ==> hint == UINT32_MAX
      ensures hint == UINT32_MAX ==> state == ClosedState || cfg.readTimeout == UINT32_MAX
      ensures old(stopRequested) || old(state) == ClosedState ==> state == ClosedState
      ensures old(state) == IdleState || old(state) == ConnectingState ==>
                state != IdleState && state != ConnectingState
      ensures old(state) == WaitingRetry && !old(stopRequested) ==>
                && hint == TimeLeft(old(now.earliest), clock)
                && state == if hint == 0 then ConnectingState else WaitingRetry
    {
      hide Recorded, Grew, Polled, IdStored, Apart, SseParser.Valid, StreamTrace, StaysOpen;
      GrewTransitive();
      BeginPoll();
      assert now.doomed ==> now.phase == Closed;
      hint := Step();
      ghost var before := run;
      EndPoll(hint);
      WholePoll(old(run), before, PollEnd(hint, clock));
    }

    ghost method EndPoll(hint: nat)
      requires Valid() && Done(hint)
      modifies this`run, this`now
      ensures Ready()
      ensures run == old(run) + [PollEnd(hint, clock)]
    {
      hide Recorded, Grew, IdStored, Apart, SseParser.Valid, StreamTrace, HintLaw, StaysOpen;
      RecordPollEnd(hint);
    }

    /** sse_client_close, from the polling task. */
    method CloseNow()
      requires Ready()
      modifies Repr
      ensures Ready() && state == ClosedState && Grew(old(run), run)
    {
      hide Recorded, Grew, IdStored, Apart, SseParser.Valid;
      Close();
    }
  }

  /** sse_client_init: a client, or nothing when the configuration is refused. */
  method Init(cfg: Config, dataBuf: array<byte>, idBuf: array<byte>, eventBuf: array<byte>, rxBuf: array<byte>,
              clock: nat)
    returns (c: SseClient?)
    requires cfg.caps == Caps(dataBuf.Length, idBuf.Length, eventBuf.Length) && cfg.rxLen == rxBuf.Length
    requires dataBuf != idBuf && dataBuf != eventBuf && idBuf != eventBuf
    requires rxBuf != dataBuf && rxBuf != idBuf && rxBuf != eventBuf
    ensures c != null <==>
              && cfg.caps.data >= 2 && 2 <= cfg.caps.id <= 129 && cfg.caps.event >= 2
              && cfg.rxLen > 0 && 3 + |cfg.extraHeaders| <= 16
    ensures c != null ==> fresh(c) && c.Ready() && c.run == [] && c.state == IdleState && !c.stopRequested
    ensures c != null ==> fresh(c.Repr - {dataBuf, idBuf, eventBuf, rxBuf})
    ensures c != null ==>
              c.cfg == cfg.(defaultRetry := if cfg.defaultRetry == 0 then 3000 else cfg.defaultRetry,
                            readTimeout := if cfg.readTimeout == 0 then 500 else cfg.readTimeout)
  {
    hide SseClient.Ready, SseParser.Valid;
    if !GoodConfig(cfg) {
      return null;
    }
    var parser := new SseParser(dataBuf, idBuf, eventBuf);
    c := new SseClient(WithDefaults(cfg), parser, rxBuf, clock);
  }

  /** A zero retry or read timeout stands for its default. */
  function WithDefaults(cfg: Config): Config {
    cfg.(defaultRetry := if cfg.defaultRetry == 0 then 3000 else cfg.defaultRetry,
         readTimeout := if cfg.readTimeout == 0 then 500 else cfg.readTimeout)
  }

  /** Any use of a client, for any number of calls: its run stays legal. */
  method Drive(c: SseClient, calls: nat)
    requires c.Ready()
    modifies c.Repr
    ensures c.Ready() && Legal(c.cfg, c.run) && old(c.run) <= c.run
  {
    hide Grew, Polled, SseClient.Valid, SseParser.Valid;
    for i := 0 to calls
      invariant c.Ready() && old(c.run) <= c.run
    {
      ghost var before := c.run;
      var choice: int := *;
      if choice == 0 {
        var _ := c.Poll();
      } else if choice == 1 {
        c.CloseNow();
      } else {
        c.RequestStop();
      }
      GrewIsPrefix(before, c.run);
    }
    c.IsLegal();
  }
}
