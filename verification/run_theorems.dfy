/** What every legal run of the client guarantees, read off its events. */
module RunTheorems {
  import opened Bytes
  import opened Lines
  import opened StreamSpec
  import opened Backoff
  import opened WrappingClock
  import opened Run
  import opened StreamTheorems

  // ---- reading a legal run ----

  lemma {:induction false} LegalAt(cfg: Config, run: seq<Event>, j: nat)
    requires Legal(cfg, run) && j < |run|
    ensures Legal(cfg, run[..j]) && Legal(cfg, run[..j + 1])
    ensures Allowed(cfg, FactsOf(cfg, run[..j]), run[j])
    ensures FactsOf(cfg, run[..j + 1]) == Next(FactsOf(cfg, run[..j]), run[j])
  {
    hide Allowed, Next;
    var init := run[..|run| - 1];
    if j < |run| - 1 {
      LegalAt(cfg, init, j);
      assert init[..j] == run[..j] && init[..j + 1] == run[..j + 1];
    } else {
      assert run[..j + 1] == run;
    }
  }

  /** What holds of the facts of every legal run. */
  ghost predicate Consistent(cfg: Config, f: Facts) {
    && f.transport == (f.phase == Connecting || f.phase == Receiving)
    && (f.owed.Some? ==> f.phase == Receiving && f.turn == Worked && (f.owed.value.OnMessage? || f.owed.value.OnInfo?))
    && (f.overdue ==> f.phase == Closed || (f.phase == Waiting && f.turn != Worked))
    && f.baseRetry <= UINT32_MAX
    && (f.got.Some? ==> f.turn == Worked)
    && (f.phase == Connecting ==> f.got.None? && f.turn == Worked)
    && NUL !in f.lastId && NoTerminator(f.lastId) && (f.lastId == [] || |f.lastId| < cfg.caps.id)
  }

  lemma ConsistentNext(cfg: Config, f: Facts, e: Event)
    requires Consistent(cfg, f) && Allowed(cfg, f, e)
    ensures Consistent(cfg, Next(f, e))
  {
    hide HintLaw, StaysOpen, LawfulDelay, Decided, ExpectedHeaders, StreamTrace, Explains, DefaultRetry, Accepted;
    if e.Parsed? {
      ConsistentParsed(cfg, f, e.cb);
      hide NextParsed, WellFormed, NextInTrace;
    } else {
      hide WellFormed, Due, NextInTrace, NextParsed;
    }
  }

  lemma ConsistentParsed(cfg: Config, f: Facts, cb: Callback)
    requires Consistent(cfg, f) && f.owed.None? && WellFormed(cfg.caps, cb)
    requires f.phase == Receiving ==> f.turn == Worked
    ensures Consistent(cfg, NextParsed(f, cb))
  {
  }

  lemma {:induction false} RunIsConsistent(cfg: Config, run: seq<Event>)
    requires Legal(cfg, run)
    ensures Consistent(cfg, FactsOf(cfg, run))
  {
    hide Allowed, Next;
    if run == [] {
      assert Consistent(cfg, Start(cfg));
    } else {
      var init := run[..|run| - 1];
      RunIsConsistent(cfg, init);
      hide Consistent;
      ConsistentNext(cfg, FactsOf(cfg, init), run[|run| - 1]);
    }
  }

  // ---- the end is the end ----

  /** The client is closed, or must close before anything else. */
  ghost predicate Over(f: Facts) {
    f.phase == Closed || f.doomed
  }

  lemma OverStays(cfg: Config, f: Facts, e: Event)
    requires Consistent(cfg, f) && Allowed(cfg, f, e)
    ensures f.phase == Closed ==> Next(f, e).phase == Closed && !e.OnClosed? && !e.Shut?
    ensures Over(f) ==> Over(Next(f, e)) && !IsActive(e)
  {
    hide HintLaw, StaysOpen, LawfulDelay, Decided, ExpectedHeaders, StreamTrace, Explains, DefaultRetry;
    hide Accepted, WellFormed, Due;
  }

  lemma {:induction false} OverRemains(cfg: Config, run: seq<Event>, i: nat, j: nat)
    requires Legal(cfg, run) && i <= j < |run| && Over(FactsOf(cfg, run[..i]))
    ensures Over(FactsOf(cfg, run[..j])) && !IsActive(run[j])
    ensures FactsOf(cfg, run[..i]).phase == Closed ==>
              FactsOf(cfg, run[..j]).phase == Closed && !run[j].OnClosed? && !run[j].Shut?
    decreases j
  {
    hide Allowed, Next;
    if i < j {
      OverRemains(cfg, run, i, j - 1);
      LegalAt(cfg, run, j - 1);
      RunIsConsistent(cfg, run[..j - 1]);
      hide Consistent;
      OverStays(cfg, FactsOf(cfg, run[..j - 1]), run[j - 1]);
    }
    LegalAt(cfg, run, j);
    RunIsConsistent(cfg, run[..j]);
    hide Consistent;
    OverStays(cfg, FactsOf(cfg, run[..j]), run[j]);
  }

  lemma OverStarts(f: Facts, e: Event)
    ensures e.OnClosed? ==> Next(f, e).phase == Closed
    ensures e.CloseCalled? || (f.stopped && (e.PollBegin? || e.ReadDone?)) ==> Next(f, e).doomed
  {
  }

  /** on_closed is the last word: it comes once, and after it the client opens,
      reads, reports and closes nothing, whatever the callbacks and the policy do. */
  lemma ClosedIsFinal(cfg: Config, run: seq<Event>, i: nat, j: nat)
    requires Legal(cfg, run) && i < j < |run| && run[i].OnClosed?
    ensures !IsActive(run[j]) && !run[j].OnClosed? && !run[j].Shut?
  {
    hide Allowed, Next;
    LegalAt(cfg, run, i);
    OverStarts(FactsOf(cfg, run[..i]), run[i]);
    OverRemains(cfg, run, i + 1, j);
  }

  /** After the user closes the client, even from inside a callback or the policy
      hook, nothing more is opened, read or reported. */
  lemma CloseIsObeyed(cfg: Config, run: seq<Event>, i: nat, j: nat)
    requires Legal(cfg, run) && i < j < |run| && run[i].CloseCalled?
    ensures !IsActive(run[j])
  {
    hide Allowed, Next;
    LegalAt(cfg, run, i);
    OverStarts(FactsOf(cfg, run[..i]), run[i]);
    OverRemains(cfg, run, i + 1, j);
  }

  lemma {:induction false} StopRemains(cfg: Config, run: seq<Event>, i: nat, j: nat)
    requires Legal(cfg, run) && i < j <= |run| && run[i].StopRequested?
    ensures FactsOf(cfg, run[..j]).stopped
    decreases j
  {
    hide Allowed, Next;
    if i + 1 < j {
      StopRemains(cfg, run, i, j - 1);
    }
    LegalAt(cfg, run, j - 1);
    StopStays(FactsOf(cfg, run[..j - 1]), run[j - 1]);
  }

  lemma StopStays(f: Facts, e: Event)
    ensures Next(f, e).stopped == (f.stopped || e.StopRequested?)
  {
    if e.Parsed? {
      ParsedKeeps(f, e.cb);
    }
    hide NextParsed;
  }

  /** What a parser callback does not change. */
  lemma ParsedKeeps(f: Facts, cb: Callback)
    ensures var g := NextParsed(f, cb);
            && g.phase == f.phase && g.transport == f.transport && g.stopped == f.stopped && g.doomed == f.doomed
            && g.established == f.established && g.idAtOpen == f.idAtOpen && g.stream == f.stream
            && g.delivered == f.delivered && g.turn == f.turn && g.got == f.got && !g.userRuns
            && g.earliest == f.earliest && g.response == f.response && g.overdue == f.overdue
  {
    hide Due;
  }

  /** Once a stop has been requested, a poll that begins later opens, reads and
      reports nothing, and bytes from a read that ends later are never parsed. */
  lemma StopIsObeyed(cfg: Config, run: seq<Event>, i: nat, k: nat, j: nat)
    requires Legal(cfg, run) && i < k < j < |run|
    requires run[i].StopRequested? && (run[k].PollBegin? || run[k].ReadDone?)
    ensures !IsActive(run[j])
  {
    hide Allowed, Next;
    StopRemains(cfg, run, i, k);
    LegalAt(cfg, run, k);
    OverStarts(FactsOf(cfg, run[..k]), run[k]);
    OverRemains(cfg, run, k + 1, j);
  }

  // ---- connections ----

  predicate EndsConnection(e: Event) {
    e.Opened? || e.Shut? || e.OnFail? || e.OnClosed? || e.Asked?
  }

  /** The events after `i` belong to the connection that opened there. */
  ghost predicate OpenSince(run: seq<Event>, i: nat) {
    && i < |run| && run[i].OnOpen?
    && forall k :: i < k < |run| ==> !EndsConnection(run[k]) && !run[k].OnOpen?
  }

  function RetriesIn(run: seq<Event>): nat {
    if run == [] then 0
    else
      var e := run[|run| - 1];
      RetriesIn(run[..|run| - 1]) + if e.OnFail? && e.willRetry then 1 else 0
  }

  lemma RetriesSnoc(run: seq<Event>, i: nat)
    requires i < |run|
    ensures var init, e := run[..|run| - 1], run[|run| - 1];
            RetriesIn(run[i..]) == RetriesIn(init[i..]) + (if e.OnFail? && e.willRetry then 1 else 0)
  {
    assert run[i..][..|run[i..]| - 1] == run[..|run| - 1][i..];
  }

  /** While receiving, there is a connection that has not ended. */
  lemma {:induction false} Connection(cfg: Config, run: seq<Event>) returns (i: nat)
    requires Legal(cfg, run) && FactsOf(cfg, run).phase == Receiving
    ensures OpenSince(run, i)
  {
    hide Allowed, Consistent, Next, EndsConnection;
    var init, e := run[..|run| - 1], run[|run| - 1];
    if e.OnOpen? {
      i := |init|;
    } else {
      RunIsConsistent(cfg, init);
      StaysReceiving(cfg, FactsOf(cfg, init), e);
      i := Connection(cfg, init);
    }
  }

  lemma StaysReceiving(cfg: Config, f: Facts, e: Event)
    requires Consistent(cfg, f) && Allowed(cfg, f, e) && Next(f, e).phase == Receiving && !e.OnOpen?
    ensures f.phase == Receiving && !EndsConnection(e)
  {
    hide HintLaw, StaysOpen, LawfulDelay, Decided, ExpectedHeaders, StreamTrace, Explains, DefaultRetry;
    hide Accepted;
    hide WellFormed, Due, RetryAfter, Wrap, NextInTrace;
  }

  /** Messages and informational errors come only after on_open and before that
      connection's end. */
  lemma ReportsBelongToConnection(cfg: Config, run: seq<Event>, j: nat) returns (i: nat)
    requires Legal(cfg, run) && j < |run| && (run[j].OnMessage? || run[j].OnInfo?)
    ensures OpenSince(run[..j], i)
  {
    hide Next, EndsConnection, StreamTrace, HintLaw, StaysOpen, Due, WellFormed, Explains, Accepted;
    LegalAt(cfg, run, j);
    RunIsConsistent(cfg, run[..j]);
    i := Connection(cfg, run[..j]);
  }

  // ---- the transport is opened and closed in pairs ----

  function Opens(run: seq<Event>): nat {
    if run == [] then 0
    else
      var e := run[|run| - 1];
      Opens(run[..|run| - 1]) + if e.Opened? && e.response.Some? then 1 else 0
  }

  function Shuts(run: seq<Event>): nat {
    if run == [] then 0
    else Shuts(run[..|run| - 1]) + if run[|run| - 1].Shut? then 1 else 0
  }

  lemma TransportStep(cfg: Config, f: Facts, e: Event)
    requires Allowed(cfg, f, e)
    ensures (if Next(f, e).transport then 1 else 0) ==
            (if f.transport then 1 else 0) + (if e.Opened? && e.response.Some? then 1 else 0) -
            (if e.Shut? then 1 else 0)
    ensures e.Shut? ==> f.transport
    ensures e.Opened? || e.OnClosed? || e.OnFail? || e.Asked? ==> !f.transport
    ensures e.PollBegin? || e.PollEnd? ==> f.transport == (f.phase == Receiving)
  {
    if e.Parsed? {
      ParsedKeeps(f, e.cb);
    }
    hide LawfulDelay, Decided, ExpectedHeaders, StreamTrace, Explains, DefaultRetry, Accepted, WellFormed, Due;
    hide HintLaw, StaysOpen, RetryAfter, NextParsed;
  }

  lemma {:induction false} CountTransport(cfg: Config, run: seq<Event>)
    requires Legal(cfg, run)
    ensures Opens(run) == Shuts(run) + if FactsOf(cfg, run).transport then 1 else 0
  {
    hide Allowed, Next;
    if run != [] {
      var init := run[..|run| - 1];
      CountTransport(cfg, init);
      TransportStep(cfg, FactsOf(cfg, init), run[|run| - 1]);
    }
  }

  /** Every successful open is closed exactly once, before the next open, before
      any failure is reported and before on_closed; a failed open is never closed;
      and between polls the transport is open exactly when the client receives. */
  lemma OpensAndShutsPair(cfg: Config, run: seq<Event>, j: nat)
    requires Legal(cfg, run) && j < |run|
    ensures var open := Opens(run[..j]) - Shuts(run[..j]);
            && 0 <= open <= 1
            && (run[j].Shut? ==> open == 1)
            && (run[j].Opened? || run[j].OnClosed? || run[j].OnFail? || run[j].Asked? ==> open == 0)
            && (run[j].PollBegin? || run[j].PollEnd? ==> (open == 1 <==> FactsOf(cfg, run[..j]).phase == Receiving))
  {
    hide Allowed, Next;
    LegalAt(cfg, run, j);
    CountTransport(cfg, run[..j]);
    TransportStep(cfg, FactsOf(cfg, run[..j]), run[j]);
  }

  // ---- no reconnect comes early ----

  lemma WaitStep(cfg: Config, f: Facts, e: Event)
    requires Consistent(cfg, f) && Allowed(cfg, f, e) && !e.Opened? && (f.phase == Waiting || f.phase == Closed)
    ensures Next(f, e).phase == Waiting || Next(f, e).phase == Closed
    ensures Next(f, e).earliest == f.earliest
  {
    if e.Parsed? {
      ParsedKeeps(f, e.cb);
    }
    hide NextParsed;
    hide HintLaw, StaysOpen, LawfulDelay, Decided, ExpectedHeaders, StreamTrace, Explains, DefaultRetry;
    hide Accepted, WellFormed, Due;
  }

  lemma {:induction false} WaitRemains(cfg: Config, run: seq<Event>, i: nat, j: nat)
    requires Legal(cfg, run) && i < j <= |run| && run[i].OnFail? && run[i].willRetry
    requires forall k :: i < k < j ==> !run[k].Opened?
    ensures var f := FactsOf(cfg, run[..j]);
            (f.phase == Waiting || f.phase == Closed) && f.earliest == run[i].at + run[i].delay
    decreases j
  {
    hide Allowed, Next;
    if i + 1 < j {
      WaitRemains(cfg, run, i, j - 1);
      LegalAt(cfg, run, j - 1);
      RunIsConsistent(cfg, run[..j - 1]);
      hide Consistent;
      WaitStep(cfg, FactsOf(cfg, run[..j - 1]), run[j - 1]);
    } else {
      LegalAt(cfg, run, i);
      FailWaits(FactsOf(cfg, run[..i]), run[i]);
    }
  }

  lemma FailWaits(f: Facts, e: Event)
    requires e.OnFail? && e.willRetry
    ensures Next(f, e).phase == Waiting && Next(f, e).earliest == e.at + e.delay
  {
  }

  /** The open that follows an announced retry does not come before its delay is
      over, on the real clock, however the 32-bit clock wraps. */
  lemma NoEarlyReconnect(cfg: Config, run: seq<Event>, i: nat, j: nat)
    requires Legal(cfg, run) && i < j < |run|
    requires run[i].OnFail? && run[i].willRetry && run[j].Opened?
    requires forall k :: i < k < j ==> !run[k].Opened?
    ensures run[j].at >= run[i].at + run[i].delay
  {
    WaitRemains(cfg, run, i, j);
    LegalAt(cfg, run, j);
  }

  // ---- polls: what they do and what they return ----

  /** Is a poll under way? */
  function InPoll(run: seq<Event>): bool {
    if run == [] then false
    else
      var e := run[|run| - 1];
      e.PollBegin? || (!e.PollEnd? && InPoll(run[..|run| - 1]))
  }

  /** How often the transport was opened or read since the last poll began. */
  function WorkSince(run: seq<Event>): nat {
    if run == [] then 0
    else
      var e := run[|run| - 1];
      if e.PollBegin? then 0
      else WorkSince(run[..|run| - 1]) + if e.Opened? || e.ReadDone? then 1 else 0
  }

  lemma NextTurn(f: Facts, e: Event)
    ensures Next(f, e).turn == if e.PollBegin? then Begun
                               else if e.PollEnd? then Between
                               else if e.Opened? || e.ReadDone? then Worked
                               else f.turn
  {
    if e.Parsed? {
      ParsedKeeps(f, e.cb);
    }
    hide NextParsed;
  }

  lemma TurnStep(cfg: Config, f: Facts, e: Event)
    requires Allowed(cfg, f, e)
    ensures Next(f, e).turn == if e.PollBegin? then Begun
                               else if e.PollEnd? then Between
                               else if e.Opened? || e.ReadDone? then Worked
                               else f.turn
    ensures e.Opened? || e.ReadDone? ==> f.turn == Begun
    ensures IsActive(e) || e.PollEnd? ==> f.turn != Between
    ensures e.PollBegin? ==> f.turn == Between
  {
    NextTurn(f, e);
    hide Next;
    hide HintLaw, StaysOpen, LawfulDelay, Decided, ExpectedHeaders, StreamTrace, Explains, DefaultRetry;
    hide Accepted;
    hide WellFormed, Due, RetryAfter, Wrap;
  }

  lemma {:induction false} TurnsTell(cfg: Config, run: seq<Event>)
    requires Legal(cfg, run)
    ensures InPoll(run) == (FactsOf(cfg, run).turn != Between)
    ensures InPoll(run) ==> WorkSince(run) == if FactsOf(cfg, run).turn == Worked then 1 else 0
  {
    hide Allowed, Next;
    if run != [] {
      var init, e := run[..|run| - 1], run[|run| - 1];
      TurnsTell(cfg, init);
      TurnStep(cfg, FactsOf(cfg, init), e);
    }
  }

  /** The client opens, reads, parses and reports only inside a poll, polls do not
      overlap, and one poll opens or reads the transport at most once. */
  lemma OneStepPerPoll(cfg: Config, run: seq<Event>, j: nat)
    requires Legal(cfg, run) && j < |run|
    ensures IsActive(run[j]) || run[j].PollEnd? ==> InPoll(run[..j])
    ensures run[j].PollBegin? ==> !InPoll(run[..j])
    ensures run[j].Opened? || run[j].ReadDone? ==> WorkSince(run[..j]) == 0
  {
    hide Allowed, Next;
    LegalAt(cfg, run, j);
    TurnsTell(cfg, run[..j]);
    TurnStep(cfg, FactsOf(cfg, run[..j]), run[j]);
  }

  lemma {:induction false} ClosedIff(cfg: Config, run: seq<Event>)
    requires Legal(cfg, run)
    ensures FactsOf(cfg, run).phase == Closed <==> exists k :: 0 <= k < |run| && run[k].OnClosed?
  {
    hide Allowed, Next;
    if run != [] {
      var n := |run| - 1;
      var init, e := run[..n], run[n];
      ClosedIff(cfg, init);
      RunIsConsistent(cfg, init);
      LegalAt(cfg, run, n);
      ClosedStep(cfg, FactsOf(cfg, init), e);
      if k :| 0 <= k < |init| && init[k].OnClosed? {
        assert run[k].OnClosed?;
      }
    }
  }

  lemma ClosedStep(cfg: Config, f: Facts, e: Event)
    requires Consistent(cfg, f) && Allowed(cfg, f, e)
    ensures Next(f, e).phase == Closed <==> f.phase == Closed || e.OnClosed?
  {
    if e.Parsed? {
      ParsedKeeps(f, e.cb);
    }
    hide NextParsed;
    hide HintLaw, StaysOpen, LawfulDelay, Decided, ExpectedHeaders, StreamTrace, Explains, DefaultRetry;
    hide Accepted;
    hide WellFormed, Due, RetryAfter, Wrap;
  }

  /** Whoever must close has closed when the poll ends. */
  lemma OverIsAnswered(cfg: Config, run: seq<Event>, i: nat, j: nat)
    requires Legal(cfg, run) && i <= j < |run| && Over(FactsOf(cfg, run[..i])) && run[j].PollEnd?
    ensures exists k :: 0 <= k < j && run[k].OnClosed?
  {
    hide Next, Allowed;
    LegalAt(cfg, run, j);
    OverRemains(cfg, run, i, j);
    PollEndsClosed(cfg, FactsOf(cfg, run[..j]), run[j]);
    ClosedIff(cfg, run[..j]);
    var k :| 0 <= k < j && run[..j][k].OnClosed?;
    assert run[k].OnClosed?;
  }

  lemma PollEndsClosed(cfg: Config, f: Facts, e: Event)
    requires Allowed(cfg, f, e) && e.PollEnd?
    ensures f.doomed ==> f.phase == Closed
  {
    hide HintLaw, StaysOpen;
  }

  /** A close, wherever the user calls it, is answered by on_closed before the poll
      under way, or else the next one, ends. */
  lemma CloseIsAnswered(cfg: Config, run: seq<Event>, i: nat, j: nat)
    requires Legal(cfg, run) && i < j < |run| && run[i].CloseCalled? && run[j].PollEnd?
    ensures exists k :: 0 <= k < j && run[k].OnClosed?
  {
    hide Allowed, Next;
    LegalAt(cfg, run, i);
    OverStarts(FactsOf(cfg, run[..i]), run[i]);
    OverIsAnswered(cfg, run, i + 1, j);
  }

  /** So is a stop that was requested before a poll began or its read returned. */
  lemma StopIsAnswered(cfg: Config, run: seq<Event>, i: nat, k: nat, j: nat)
    requires Legal(cfg, run) && i < k < j < |run| && run[j].PollEnd?
    requires run[i].StopRequested? && (run[k].PollBegin? || run[k].ReadDone?)
    ensures exists m :: 0 <= m < j && run[m].OnClosed?
  {
    hide Allowed, Next;
    StopRemains(cfg, run, i, k);
    LegalAt(cfg, run, k);
    OverStarts(FactsOf(cfg, run[..k]), run[k]);
    OverIsAnswered(cfg, run, k + 1, j);
  }

  // ---- what is remembered across connections ----

  /** Is event `k` a parser callback of this kind that reached an open client? */
  predicate Committed(cfg: Config, run: seq<Event>, k: nat, kind: Kind)
    requires k < |run|
  {
    run[k].Parsed? && Is(kind, run[k].cb) && FactsOf(cfg, run[..k]).phase == Receiving
  }

  /** The last such event of the run, or -1. */
  function LastCommitted(cfg: Config, run: seq<Event>, kind: Kind): (k: int)
    ensures -1 <= k < |run|
    ensures k >= 0 ==> Committed(cfg, run, k, kind)
    ensures forall m :: k < m < |run| ==> !Committed(cfg, run, m, kind)
  {
    if run == [] then -1
    else if Committed(cfg, run, |run| - 1, kind) then |run| - 1
    else
      var init := run[..|run| - 1];
      var k := LastCommitted(cfg, init, kind);
      assert forall m :: 0 <= m < |init| ==> Committed(cfg, run, m, kind) == Committed(cfg, init, m, kind) by {
        assert forall m :: 0 <= m < |init| ==> init[..m] == run[..m];
      }
      k
  }

  /** The last id committed on any connection, or the empty one. */
  function RememberedId(cfg: Config, run: seq<Event>): bytes {
    var k := LastCommitted(cfg, run, Ids);
    if k < 0 then [] else run[k].cb.value
  }

  /** The last retry time committed on any connection, or the configured one. */
  function RememberedRetry(cfg: Config, run: seq<Event>): nat {
    var k := LastCommitted(cfg, run, Retries);
    if k < 0 then cfg.defaultRetry else run[k].cb.ms
  }

  /** The retries announced since the last event was dispatched. */
  function Flaps(cfg: Config, run: seq<Event>): nat {
    RetriesIn(run[LastCommitted(cfg, run, Events) + 1..])
  }

  lemma RememberStep(cfg: Config, f: Facts, e: Event)
    requires Allowed(cfg, f, e)
    ensures var got := e.Parsed? && f.phase == Receiving;
            && Next(f, e).lastId == (if got && Is(Ids, e.cb) then e.cb.value else f.lastId)
            && Next(f, e).baseRetry == (if got && Is(Retries, e.cb) then e.cb.ms else f.baseRetry)
            && Next(f, e).scheduled == (if got && Is(Events, e.cb) then 0
                                        else f.scheduled + if e.OnFail? && e.willRetry then 1 else 0)
  {
    hide Allowed, Due;
    if e.Parsed? {
      RememberParsed(f, e.cb);
    }
    hide NextParsed;
  }

  lemma RememberParsed(f: Facts, cb: Callback)
    ensures var g, got := NextParsed(f, cb), f.phase == Receiving;
            && g.lastId == (if got && Is(Ids, cb) then cb.value else f.lastId)
            && g.baseRetry == (if got && Is(Retries, cb) then cb.ms else f.baseRetry)
            && g.scheduled == (if got && Is(Events, cb) then 0 else f.scheduled)
  {
    hide Due;
  }

  /** The facts that decide about headers, delays and on_open are what the run's
      own events say, on whatever connection they happened. */
  lemma {:induction false} FactsRemember(cfg: Config, run: seq<Event>)
    requires Legal(cfg, run)
    ensures FactsOf(cfg, run).lastId == RememberedId(cfg, run)
    ensures FactsOf(cfg, run).baseRetry == RememberedRetry(cfg, run)
    ensures FactsOf(cfg, run).scheduled == Flaps(cfg, run)
  {
    if run != [] {
      hide Allowed, Next;
      var init, e := run[..|run| - 1], run[|run| - 1];
      FactsRemember(cfg, init);
      RememberStep(cfg, FactsOf(cfg, init), e);
      hide Legal, FactsOf;
      FlapsSnoc(cfg, run);
    }
  }

  lemma FlapsSnoc(cfg: Config, run: seq<Event>)
    requires run != []
    ensures var init, e := run[..|run| - 1], run[|run| - 1];
            Flaps(cfg, run) == if Committed(cfg, run, |run| - 1, Events) then 0
                               else Flaps(cfg, init) + if e.OnFail? && e.willRetry then 1 else 0
  {
    hide Committed, Legal, FactsOf;
    var n := |run| - 1;
    if Committed(cfg, run, n, Events) {
      assert LastCommitted(cfg, run, Events) == n && run[n + 1..] == [];
    } else {
      var k := LastCommitted(cfg, run[..n], Events);
      assert LastCommitted(cfg, run, Events) == k;
      hide LastCommitted;
      RetriesSnoc(run, k + 1);
    }
  }

  /** Resume: every open sends the two fixed headers, then the last id committed
      on any earlier connection, untruncated and free of line breaks, exactly when
      it is not empty, then the user's lines; never more than the array holds. */
  lemma ResumeHeaders(cfg: Config, run: seq<Event>, j: nat)
    requires Legal(cfg, run) && j < |run| && run[j].Opened?
    requires cfg.caps.id <= ID_MAX + 1 && 3 + |cfg.extraHeaders| <= MAX_HEADERS
    ensures var id := RememberedId(cfg, run[..j]);
            && run[j].headers == [AcceptLine(), NoStoreLine()] +
                                 (if id == [] then [] else [LastEventIdLabel() + id]) + cfg.extraHeaders
            && |run[j].headers| <= MAX_HEADERS
            && |id| <= ID_MAX && NUL !in id && NoTerminator(id)
  {
    hide Allowed, Next, AcceptLine, NoStoreLine, LastEventIdLabel, NoTerminator, RememberedId;
    LegalAt(cfg, run, j);
    RunIsConsistent(cfg, run[..j]);
    FactsRemember(cfg, run[..j]);
    LawOfTheEvent(cfg, FactsOf(cfg, run[..j]), run[j]);
  }

  /** The parts of the law that the results below are about. */
  lemma LawOfTheEvent(cfg: Config, f: Facts, e: Event)
    requires Allowed(cfg, f, e)
    ensures e.Opened? ==> e.headers == ExpectedHeaders(cfg, f.lastId)
    ensures e.OnOpen? ==> e.reconnects == Wrap(f.scheduled)
    ensures e.OnFail? && e.willRetry ==>
              LawfulDelay(cfg, f.baseRetry, f.scheduled, RetryAfter(f.response, e.reason), e.delay)
    ensures e.OnFail? ==> Decided(cfg, f.asked, e.reason, e.status, RetryAfter(f.response, e.reason), e.willRetry)
    ensures e.OnFail? && e.reason == IdleTimeout ==> cfg.idleTimeout != 0 && e.at >= f.lastRx + cfg.idleTimeout
  {
    hide HintLaw, StaysOpen, LawfulDelay, Decided, ExpectedHeaders, StreamTrace, Explains, DefaultRetry;
    hide Accepted, WellFormed, RetryAfter, Wrap;
  }

  /** on_open reports the retries since the last event, modulo 2^32. */
  lemma ReconnectCount(cfg: Config, run: seq<Event>, j: nat)
    requires Legal(cfg, run) && j < |run| && run[j].OnOpen?
    ensures run[j].reconnects == Flaps(cfg, run[..j]) % 4294967296
  {
    hide Allowed, Next, Flaps;
    LegalAt(cfg, run, j);
    FactsRemember(cfg, run[..j]);
    LawOfTheEvent(cfg, FactsOf(cfg, run[..j]), run[j]);
  }

  /** What the last open came to. */
  function LastResponse(run: seq<Event>): Option<Response> {
    if run == [] then None
    else
      var e := run[|run| - 1];
      if e.Opened? then e.response else LastResponse(run[..|run| - 1])
  }

  lemma {:induction false} ResponseRemembered(cfg: Config, run: seq<Event>)
    ensures FactsOf(cfg, run).response == LastResponse(run)
  {
    hide Next;
    if run != [] {
      ResponseRemembered(cfg, run[..|run| - 1]);
      ResponseStep(FactsOf(cfg, run[..|run| - 1]), run[|run| - 1]);
    }
  }

  lemma ResponseStep(f: Facts, e: Event)
    ensures Next(f, e).response == if e.Opened? then e.response else f.response
  {
    if e.Parsed? {
      ParsedKeeps(f, e.cb);
    }
    hide NextParsed;
  }

  /** The Retry-After that counts for the failure at `j`: that of the last response,
      if its status is the reason. */
  function RetryAfterAt(run: seq<Event>, j: nat): int32
    requires j < |run| && run[j].OnFail?
  {
    RetryAfter(LastResponse(run[..j]), run[j].reason)
  }

  /** Every announced delay obeys the backoff law for the retry time and the
      number of failures that the run itself shows, with a Retry-After only after
      an HTTP status. */
  lemma DelayLaw(cfg: Config, run: seq<Event>, j: nat)
    requires Legal(cfg, run) && j < |run| && run[j].OnFail? && run[j].willRetry
    ensures var base, failures := RememberedRetry(cfg, run[..j]), Wrap(Flaps(cfg, run[..j]));
            Announced(Nominal(base, cfg.maxRetry, failures, RetryAfterAt(run, j)), cfg.jitter, run[j].delay)
  {
    ResponseRemembered(cfg, run[..j]);
    hide Allowed, Next, Nominal, RetryAfter, Announced, RememberedRetry, Flaps, Wrap;
    LegalAt(cfg, run, j);
    FactsRemember(cfg, run[..j]);
    LawOfTheEvent(cfg, FactsOf(cfg, run[..j]), run[j]);
  }

  // ---- who decides about a failure, and when silence is one ----

  lemma {:induction false} AskedBefore(cfg: Config, run: seq<Event>) returns (i: nat)
    requires Legal(cfg, run) && FactsOf(cfg, run).asked.Some?
    ensures i < |run| && FactsOf(cfg, run).asked == Some(run[i]) && run[i].Asked?
    ensures forall k :: i < k < |run| ==> !run[k].Opened? && !(run[k].OnFail? && run[k].willRetry)
  {
    hide Allowed, Next;
    var init, e := run[..|run| - 1], run[|run| - 1];
    AskedStep(FactsOf(cfg, init), e);
    if e.Asked? {
      i := |init|;
    } else {
      i := AskedBefore(cfg, init);
    }
  }

  lemma AskedStep(f: Facts, e: Event)
    ensures Next(f, e).asked == if e.Asked? then Some(e)
                                else if e.Opened? || (e.OnFail? && e.willRetry) then None
                                else f.asked
  {
  }

  /** With a policy hook its answer about this very failure is final, whatever the
      default would be, which it was told; without one the default decides. */
  lemma PolicyDecides(cfg: Config, run: seq<Event>, j: nat) returns (i: nat)
    requires Legal(cfg, run) && j < |run| && run[j].OnFail?
    ensures var e := run[j];
            var advice := DefaultRetry(e.reason, e.status, RetryAfterAt(run, j));
            if cfg.hasPolicy then
              && i < j && run[i] == Asked(e.reason, e.status, advice, e.willRetry)
              && forall k :: i < k < j ==> !run[k].Opened? && !(run[k].OnFail? && run[k].willRetry)
            else e.willRetry == advice
  {
    hide Allowed, Next, DefaultRetry, RetryAfter, LastResponse;
    var before := run[..j];
    ResponseRemembered(cfg, before);
    LegalAt(cfg, run, j);
    LawOfTheEvent(cfg, FactsOf(cfg, before), run[j]);
    i := 0;
    if cfg.hasPolicy {
      i := AskedBefore(cfg, before);
      assert forall k :: 0 <= k < j ==> before[k] == run[k];
    }
  }

  /** When bytes last came, or the connection opened. */
  function LastArrival(run: seq<Event>): nat {
    if run == [] then 0
    else
      var e := run[|run| - 1];
      if e.Fed? || e.OnOpen? then e.at else LastArrival(run[..|run| - 1])
  }

  lemma {:induction false} ArrivalRemembered(cfg: Config, run: seq<Event>)
    ensures FactsOf(cfg, run).lastRx == LastArrival(run)
  {
    hide Next;
    if run != [] {
      ArrivalRemembered(cfg, run[..|run| - 1]);
      ArrivalStep(FactsOf(cfg, run[..|run| - 1]), run[|run| - 1]);
    }
  }

  lemma ArrivalStep(f: Facts, e: Event)
    ensures Next(f, e).lastRx == if e.Fed? || e.OnOpen? then e.at else f.lastRx
  {
  }

  /** Silence is reported only after it has really lasted the idle timeout. */
  lemma IdleTimeoutNotEarly(cfg: Config, run: seq<Event>, j: nat)
    requires Legal(cfg, run) && j < |run| && run[j].OnFail? && run[j].reason == IdleTimeout
    ensures cfg.idleTimeout != 0 && run[j].at >= LastArrival(run[..j]) + cfg.idleTimeout
  {
    hide Allowed, Next;
    LegalAt(cfg, run, j);
    LawOfTheEvent(cfg, FactsOf(cfg, run[..j]), run[j]);
    ArrivalRemembered(cfg, run[..j]);
  }
}
