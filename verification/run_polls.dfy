/** What a poll returns, in every run, and that a retry that was announced happens. */
module RunPolls {
  import opened Bytes
  import opened StreamSpec
  import opened StreamTheorems
  import opened Backoff
  import opened WrappingClock
  import opened Run
  import opened RunTheorems
  import opened RunDelivery

  // ---- what decides about the hint, read off the events ----

  predicate HasClosed(run: seq<Event>) {
    exists k :: 0 <= k < |run| && run[k].OnClosed?
  }

  /** What the poll under way has read: a number of bytes, 0 for a timeout, or less. */
  function LastRead(run: seq<Event>): Option<int> {
    if run == [] then None
    else
      var e := run[|run| - 1];
      if e.PollBegin? then None else if e.ReadDone? then Some(e.got.count) else LastRead(run[..|run| - 1])
  }

  /** The moment up to which the last announced retry waits. */
  function NextDue(run: seq<Event>): nat {
    if run == [] then 0
    else
      var e := run[|run| - 1];
      if e.OnFail? && e.willRetry then e.at + e.delay else NextDue(run[..|run| - 1])
  }

  lemma {:induction false} DueRemembered(cfg: Config, run: seq<Event>)
    ensures FactsOf(cfg, run).earliest == NextDue(run)
  {
    hide Next;
    if run != [] {
      DueRemembered(cfg, run[..|run| - 1]);
      DueStep(FactsOf(cfg, run[..|run| - 1]), run[|run| - 1]);
    }
  }

  lemma DueStep(f: Facts, e: Event)
    ensures Next(f, e).earliest == if e.OnFail? && e.willRetry then e.at + e.delay else f.earliest
  {
    if e.Parsed? {
      ParsedKeeps(f, e.cb);
    }
    hide NextParsed;
  }

  predicate TimedOut(f: Facts) {
    f.got.Some? && f.got.value.count == 0
  }

  lemma TimedOutStep(cfg: Config, f: Facts, e: Event)
    requires Consistent(cfg, f) && Allowed(cfg, f, e) && !e.PollEnd?
    ensures TimedOut(Next(f, e)) <==> if e.ReadDone? then e.got.count == 0 else TimedOut(f)
    ensures e.PollBegin? ==> !TimedOut(f)
  {
    hide LawfulDelay, Decided, ExpectedHeaders, StreamTrace, Explains, DefaultRetry, Accepted, WellFormed, Due;
    hide RetryAfter, Wrap, NextInTrace;
  }

  lemma {:induction false} ReadRemembered(cfg: Config, run: seq<Event>)
    requires Legal(cfg, run) && InPoll(run)
    ensures TimedOut(FactsOf(cfg, run)) <==> LastRead(run) == Some(0)
  {
    hide Allowed, Next, Consistent, TimedOut;
    var init, e := run[..|run| - 1], run[|run| - 1];
    RunIsConsistent(cfg, init);
    TimedOutStep(cfg, FactsOf(cfg, init), e);
    if !e.PollBegin? {
      ReadRemembered(cfg, init);
    }
  }

  lemma HintOf(cfg: Config, f: Facts, e: Event)
    requires Allowed(cfg, f, e) && e.PollEnd?
    ensures HintLaw(cfg, f, e.hint, e.at) && f.turn != Between
  {
    hide HintLaw, StaysOpen;
  }

  /** The hint of every poll: UINT32_MAX once the client is closed; after an open or
      a read nothing, but the read timeout if the read timed out, even when that made
      the connection fail; and else the time left to the announced retry. */
  lemma HintExactly(cfg: Config, run: seq<Event>, j: nat)
    requires Legal(cfg, run) && j < |run| && run[j].PollEnd?
    ensures var before := run[..j];
            && run[j].hint == (if HasClosed(before) then 4294967295
                               else if WorkSince(before) == 0 then TimeLeft(NextDue(before), run[j].at)
                               else if LastRead(before) == Some(0) then cfg.readTimeout
                               else 0)
            && (!HasClosed(before) && WorkSince(before) == 0 ==> run[j].hint < 4294967295)
  {
    hide Next, Allowed, TimeLeft;
    LegalAt(cfg, run, j);
    HintOf(cfg, FactsOf(cfg, run[..j]), run[j]);
    ClosedIff(cfg, run[..j]);
    TurnsTell(cfg, run[..j]);
    ReadRemembered(cfg, run[..j]);
    DueRemembered(cfg, run[..j]);
  }

  // ---- UINT32_MAX ----

  /** A poll returns UINT32_MAX exactly when the client is closed, or when its read
      timed out and that is the read timeout. */
  lemma ClosedHint(cfg: Config, run: seq<Event>, j: nat)
    requires Legal(cfg, run) && j < |run| && run[j].PollEnd?
    ensures run[j].hint == 4294967295 <==>
            HasClosed(run[..j]) || (cfg.readTimeout == 4294967295 && LastRead(run[..j]) == Some(0))
  {
    hide Legal, TimeLeft;
    HintExactly(cfg, run, j);
    if LastRead(run[..j]) == Some(0) {
      ReadIsWork(run[..j]);
    }
  }

  lemma {:induction false} ReadIsWork(run: seq<Event>)
    requires LastRead(run).Some?
    ensures WorkSince(run) > 0
  {
    var e := run[|run| - 1];
    if !e.ReadDone? {
      ReadIsWork(run[..|run| - 1]);
    }
  }

  /** In no run, whatever the surroundings do, does a poll return UINT32_MAX while the
      client is not closed. */
  ghost predicate HintMeansClosed(cfg: Config) {
    forall world: World, run: seq<Event>, j: nat
      | Legal(cfg.(world := world), run) && j < |run| && run[j].PollEnd? ::
      run[j].hint == UINT32_MAX <==> HasClosed(run[..j])
  }

  /** UINT32_MAX means closed exactly for the configurations with a smaller read timeout. */
  lemma HintMeansClosedExactly(cfg: Config)
    ensures HintMeansClosed(cfg) <==> cfg.readTimeout < UINT32_MAX
  {
    hide Legal;
    forall world: World, run: seq<Event>, j: nat
      | Legal(cfg.(world := world), run) && j < |run| && run[j].PollEnd? {
      ClosedHint(cfg.(world := world), run, j);
    }
    if cfg.readTimeout == UINT32_MAX {
      var silent := cfg.(world := SilentWorld());
      var run := SilentRun(silent);
      SilentRunIsLegal(silent);
      assert !HasClosed(run[..6]) by {
        hide *;
        assert forall k :: 0 <= k < 6 ==> !run[k].OnClosed?;
      }
      assert run[6].hint == UINT32_MAX;
    }
  }

  /** What a server answers that accepts the connection. */
  const ACCEPTS: Response := Response(200, EventStream(), -1)

  /** A server that accepts the connection and then sends nothing. */
  function SilentWorld(): World {
    World(n => false, n => false, n => false, n => Some(ACCEPTS), n => Got(0, []))
  }

  function NothingRead(cfg: Config): Got {
    Filled(Got(0, []), cfg.rxLen)
  }

  /** A connection that opens and a read that times out, all at once. */
  function SilentRun(cfg: Config): seq<Event> {
    [PollBegin, Opened(0, ExpectedHeaders(cfg, []), Some(ACCEPTS)), OnOpen(0, 0), PollEnd(0, 0),
     PollBegin, ReadDone(NothingRead(cfg)), PollEnd(cfg.readTimeout, 0)]
  }

  /** The facts of its polls: connected, and between polls. */
  function Connected(cfg: Config): Facts {
    Start(cfg).(phase := Receiving, transport := true, established := true, response := Some(ACCEPTS),
                calls := 1, polls := 1)
  }

  lemma SilentOpens(cfg: Config)
    requires cfg.world == SilentWorld()
    ensures var f := Start(cfg).(turn := Begun, polls := 1);
            var g := f.(phase := Connecting, transport := true, response := Some(ACCEPTS), turn := Worked);
            && Allowed(cfg, Start(cfg), PollBegin) && Next(Start(cfg), PollBegin) == f
            && Allowed(cfg, f, SilentRun(cfg)[1]) && Next(f, SilentRun(cfg)[1]) == g
            && Allowed(cfg, g, OnOpen(0, 0))
            && Next(g, OnOpen(0, 0)) == Connected(cfg).(turn := Worked, userRuns := true)
  {
    hide ExpectedHeaders;
    assert Lowered(EventStream()) == EventStream() && EventStream()[..17] == EventStream();
  }

  lemma SilentReads(cfg: Config)
    requires cfg.world == SilentWorld()
    ensures var f := Connected(cfg);
            var e, b := f.(turn := Worked, userRuns := true), f.(turn := Begun, polls := 2);
            var g := b.(turn := Worked, got := Some(NothingRead(cfg)));
            && Allowed(cfg, e, PollEnd(0, 0)) && Next(e, PollEnd(0, 0)) == f
            && Allowed(cfg, f, PollBegin) && Next(f, PollBegin) == b
            && Allowed(cfg, b, ReadDone(NothingRead(cfg))) && Next(b, ReadDone(NothingRead(cfg))) == g
            && Allowed(cfg, g, PollEnd(cfg.readTimeout, 0))
  {
    BomTrace(cfg.caps, []);
    hide StreamTrace, Filled;
  }

  lemma SilentRunIsLegal(cfg: Config)
    requires cfg.world == SilentWorld()
    ensures Legal(cfg, SilentRun(cfg))
  {
    var r := SilentRun(cfg);
    SilentOpens(cfg);
    SilentReads(cfg);
    StartsLegal(cfg);
    hide Allowed, Next, Legal, FactsOf, Start, Connected, NothingRead, ExpectedHeaders;
    SevenEvents(r);
    Extend(cfg, [], r[0]);
    Extend(cfg, [] + [r[0]], r[1]);
    Extend(cfg, [] + [r[0]] + [r[1]], r[2]);
    Extend(cfg, [] + [r[0]] + [r[1]] + [r[2]], r[3]);
    Extend(cfg, [] + [r[0]] + [r[1]] + [r[2]] + [r[3]], r[4]);
    Extend(cfg, [] + [r[0]] + [r[1]] + [r[2]] + [r[3]] + [r[4]], r[5]);
    Extend(cfg, [] + [r[0]] + [r[1]] + [r[2]] + [r[3]] + [r[4]] + [r[5]], r[6]);
  }

  lemma SevenEvents(r: seq<Event>)
    requires |r| == 7
    ensures [] + [r[0]] + [r[1]] + [r[2]] + [r[3]] + [r[4]] + [r[5]] + [r[6]] == r
  {
  }

  // ---- how long the wait lasts ----

  lemma {:induction false} WaitRests(cfg: Config, run: seq<Event>, i: nat, b: nat, j: nat)
    requires Legal(cfg, run) && i < b < j <= |run| && run[i].OnFail? && run[i].willRetry && run[b].PollBegin?
    requires forall k :: i < k < j ==> !run[k].Opened?
    ensures FactsOf(cfg, run[..j]).turn != Worked
    decreases j
  {
    hide Allowed, Next;
    LegalAt(cfg, run, j - 1);
    TurnStep(cfg, FactsOf(cfg, run[..j - 1]), run[j - 1]);
    if b + 1 < j {
      WaitRests(cfg, run, i, b, j - 1);
      WaitRemains(cfg, run, i, j - 1);
      NoReadWaiting(cfg, FactsOf(cfg, run[..j - 1]), run[j - 1]);
    }
  }

  lemma NoReadWaiting(cfg: Config, f: Facts, e: Event)
    requires Allowed(cfg, f, e)
    ensures e.ReadDone? ==> f.phase == Receiving
  {
    hide HintLaw, StaysOpen, LawfulDelay, Decided, ExpectedHeaders, StreamTrace, Explains, DefaultRetry;
    hide Accepted;
    hide WellFormed, Due, RetryAfter, Wrap, Next;
  }

  lemma {:induction false} NotClosedSince(cfg: Config, run: seq<Event>, i: nat, j: nat)
    requires Legal(cfg, run) && i <= j <= |run| && FactsOf(cfg, run[..i]).phase != Closed
    requires forall k :: i <= k < j ==> !run[k].OnClosed?
    ensures FactsOf(cfg, run[..j]).phase != Closed
    decreases j
  {
    hide Allowed, Next;
    if i < j {
      NotClosedSince(cfg, run, i, j - 1);
      LegalAt(cfg, run, j - 1);
      RunIsConsistent(cfg, run[..j - 1]);
      ClosedStep(cfg, FactsOf(cfg, run[..j - 1]), run[j - 1]);
    }
  }

  // ---- while a retry waits ----

  /** A poll that begins after a retry was announced, and neither opens nor closes,
      returns the time left to the announced moment, on the real clock, and 0 from
      that moment on, for the first 2^31 ms of every turn of the 32-bit clock. */
  lemma WaitingHint(cfg: Config, run: seq<Event>, i: nat, b: nat, j: nat)
    requires Legal(cfg, run) && i < b < j < |run|
    requires run[i].OnFail? && run[i].willRetry && run[b].PollBegin? && run[j].PollEnd?
    requires forall k :: i < k < j ==> !run[k].Opened? && !run[k].OnClosed?
    ensures run[j].hint == TimeLeft(run[i].at + run[i].delay, run[j].at) && WorkSince(run[..j]) == 0
    ensures var due, now := run[i].at + run[i].delay, run[j].at;
            if now < due then run[j].hint == due - now
            else
              var late := (now - due) % 4294967296;
              run[j].hint == if late <= 2147483648 then 0 else 4294967296 - late
  {
    hide Next, Allowed;
    LegalAt(cfg, run, j);
    HintOf(cfg, FactsOf(cfg, run[..j]), run[j]);
    TurnsTell(cfg, run[..j]);
    WaitRemains(cfg, run, i, j);
    WaitRests(cfg, run, i, b, j);
    LegalAt(cfg, run, i);
    FailWaits(FactsOf(cfg, run[..i]), run[i]);
    NotClosedSince(cfg, run, i + 1, j);
  }

  lemma OverdueStep(cfg: Config, f: Facts, e: Event)
    requires Consistent(cfg, f) && Allowed(cfg, f, e) && !e.Opened? && !e.OnClosed?
    requires f.overdue && f.phase == Waiting && f.turn != Worked
    ensures !e.PollEnd? && Next(f, e).overdue && Next(f, e).phase == Waiting && Next(f, e).turn != Worked
  {
    hide HintLaw, StaysOpen, LawfulDelay, Decided, ExpectedHeaders, StreamTrace, Explains, DefaultRetry, Accepted;
    hide WellFormed, Due, RetryAfter, Wrap, NextInTrace;
  }

  lemma OverdueStarts(cfg: Config, f: Facts, e: Event)
    requires Allowed(cfg, f, e) && e.PollEnd? && f.turn == Begun && e.hint == 0
    ensures Next(f, e).overdue && Next(f, e).phase == Waiting && Next(f, e).turn != Worked
  {
    hide StaysOpen, TimeLeft;
  }

  lemma {:induction false} OverdueRemains(cfg: Config, run: seq<Event>, i: nat, j: nat)
    requires Legal(cfg, run) && i < j <= |run| && run[i].PollEnd? && run[i].hint == 0 && WorkSince(run[..i]) == 0
    requires forall k :: i < k < j ==> !run[k].Opened? && !run[k].OnClosed?
    ensures var f := FactsOf(cfg, run[..j]);
            f.overdue && f.phase == Waiting && f.turn != Worked
    decreases j
  {
    hide Allowed, Next, Consistent;
    LegalAt(cfg, run, j - 1);
    if i + 1 < j {
      OverdueRemains(cfg, run, i, j - 1);
      RunIsConsistent(cfg, run[..j - 1]);
      OverdueStep(cfg, FactsOf(cfg, run[..j - 1]), run[j - 1]);
    } else {
      TurnsTell(cfg, run[..i]);
      TurnStep(cfg, FactsOf(cfg, run[..i]), run[i]);
      OverdueStarts(cfg, FactsOf(cfg, run[..i]), run[i]);
    }
  }

  /** After a poll that only waited and returned 0, the next one opens, or closes. */
  lemma NextPollConnects(cfg: Config, run: seq<Event>, i: nat, j: nat)
    requires Legal(cfg, run) && i < j < |run| && run[j].PollEnd?
    requires run[i].PollEnd? && run[i].hint == 0 && WorkSince(run[..i]) == 0
    ensures exists k :: i < k < j && (run[k].Opened? || run[k].OnClosed?)
  {
    hide Allowed, Next, Consistent;
    if forall k :: i < k < j ==> !run[k].Opened? && !run[k].OnClosed? {
      OverdueRemains(cfg, run, i, j);
      LegalAt(cfg, run, j);
      RunIsConsistent(cfg, run[..j]);
      OverdueStep(cfg, FactsOf(cfg, run[..j]), run[j]);
    }
  }

  /** A retry that was announced happens, unless the client closes: once a poll has
      ended at the announced moment or up to 2^31 ms after it, and one more poll has
      ended, there has been an open. */
  lemma RetryHappens(cfg: Config, run: seq<Event>, i: nat, b: nat, j: nat, m: nat)
    requires Legal(cfg, run) && i < b < j < m < |run|
    requires run[i].OnFail? && run[i].willRetry && run[b].PollBegin? && run[j].PollEnd? && run[m].PollEnd?
    requires TimeLeft(run[i].at + run[i].delay, run[j].at) == 0
    ensures exists k :: i < k < m && (run[k].Opened? || run[k].OnClosed?)
  {
    hide Legal, TimeLeft;
    if forall k :: i < k < j ==> !run[k].Opened? && !run[k].OnClosed? {
      WaitingHint(cfg, run, i, b, j);
      NextPollConnects(cfg, run, j, m);
    }
  }

  // ---- every poll makes progress ----

  /** A retry has been announced and not opened, and no poll has yet waited for it
      to the end. */
  function StillWaiting(run: seq<Event>): bool {
    if run == [] then false
    else
      var n := |run| - 1;
      var e := run[n];
      if e.OnFail? && e.willRetry then true
      else if e.Opened? || (e.PollEnd? && WorkSince(run[..n]) == 0 && e.hint == 0) then false
      else StillWaiting(run[..n])
  }

  predicate Waits(f: Facts) {
    f.phase == Waiting && !f.overdue
  }

  lemma WaitsStep(cfg: Config, f: Facts, e: Event)
    requires Consistent(cfg, f) && Allowed(cfg, f, e) && Next(f, e).phase != Closed
    ensures Waits(Next(f, e)) <==>
            if e.OnFail? && e.willRetry then true
            else if e.Opened? || (e.PollEnd? && f.turn == Begun && e.hint == 0) then false
            else Waits(f)
  {
    hide StaysOpen, LawfulDelay, Decided, ExpectedHeaders, StreamTrace, Explains, DefaultRetry, Accepted;
    hide WellFormed, Due, RetryAfter, Wrap, NextInTrace, TimeLeft;
  }

  lemma {:induction false} WaitingTold(cfg: Config, run: seq<Event>)
    requires Legal(cfg, run) && FactsOf(cfg, run).phase != Closed
    ensures Waits(FactsOf(cfg, run)) <==> StillWaiting(run)
  {
    hide Allowed, Next, Consistent, Waits;
    if run == [] {
      NothingWaits(cfg);
    } else {
      var init, e := run[..|run| - 1], run[|run| - 1];
      RunIsConsistent(cfg, init);
      TurnsTell(cfg, init);
      TurnStep(cfg, FactsOf(cfg, init), e);
      ClosedStep(cfg, FactsOf(cfg, init), e);
      WaitsStep(cfg, FactsOf(cfg, init), e);
      WaitingTold(cfg, init);
    }
  }

  lemma NothingWaits(cfg: Config)
    ensures !Waits(Start(cfg))
  {
  }

  /** Before it has worked, a poll that does not have to wait or to close can neither
      end nor call the user. */
  ghost predicate MustWork(f: Facts) {
    && f.turn == Begun && !f.doomed && !f.userRuns && f.got.None?
    && (f.phase == Idle || f.phase == Receiving || (f.phase == Waiting && f.overdue))
  }

  lemma MustWorkStep(cfg: Config, f: Facts, e: Event)
    requires Consistent(cfg, f) && Allowed(cfg, f, e) && MustWork(f)
    ensures !e.PollEnd? && (MustWork(Next(f, e)) || Next(f, e).turn == Worked)
  {
    hide StaysOpen, LawfulDelay, Decided, ExpectedHeaders, StreamTrace, Explains, DefaultRetry, Accepted;
    hide WellFormed, Due, RetryAfter, Wrap, TimeLeft;
  }

  lemma MustWorkBegins(cfg: Config, f: Facts, e: Event)
    requires Consistent(cfg, f) && Allowed(cfg, f, e) && e.PollBegin?
    requires f.phase != Closed && !f.stopped && !Waits(f)
    ensures MustWork(Next(f, e))
  {
  }

  lemma WorkedStays(cfg: Config, f: Facts, e: Event)
    requires Allowed(cfg, f, e) && f.turn == Worked && !e.PollEnd?
    ensures Next(f, e).turn == Worked
  {
    hide Allowed, Next;
    TurnStep(cfg, f, e);
  }

  lemma {:induction false} WorksUntil(cfg: Config, run: seq<Event>, b: nat, j: nat)
    requires Legal(cfg, run) && b < j <= |run| && run[b].PollBegin?
    requires forall k :: b < k < j ==> !run[k].PollEnd?
    requires var f := FactsOf(cfg, run[..b]);
             f.phase != Closed && !f.stopped && !Waits(f)
    ensures var f := FactsOf(cfg, run[..j]);
            MustWork(f) || f.turn == Worked
    decreases j
  {
    hide Allowed, Next, Consistent, MustWork, Waits;
    LegalAt(cfg, run, j - 1);
    RunIsConsistent(cfg, run[..j - 1]);
    var f, e := FactsOf(cfg, run[..j - 1]), run[j - 1];
    if b + 1 < j {
      WorksUntil(cfg, run, b, j - 1);
      if f.turn == Worked {
        WorkedStays(cfg, f, e);
      } else {
        MustWorkStep(cfg, f, e);
      }
    } else {
      MustWorkBegins(cfg, f, e);
    }
  }

  lemma {:induction false} NoStopYet(cfg: Config, run: seq<Event>)
    requires forall k :: 0 <= k < |run| ==> !run[k].StopRequested?
    ensures !FactsOf(cfg, run).stopped
  {
    hide Next;
    if run != [] {
      NoStopYet(cfg, run[..|run| - 1]);
      StopStays(FactsOf(cfg, run[..|run| - 1]), run[|run| - 1]);
    }
  }

  /** Progress: a poll of a client that has not been stopped or closed, and is not
      waiting for an announced retry, opens the transport or reads it. */
  lemma PollWorks(cfg: Config, run: seq<Event>, b: nat, j: nat)
    requires Legal(cfg, run) && b < j < |run| && run[b].PollBegin? && run[j].PollEnd?
    requires forall k :: b < k < j ==> !run[k].PollEnd?
    requires forall k :: 0 <= k < b ==> !run[k].StopRequested? && !run[k].OnClosed?
    requires !StillWaiting(run[..b])
    ensures WorkSince(run[..j]) == 1
  {
    hide Allowed, Next, Consistent, MustWork, Waits;
    LegalAt(cfg, run, b);
    LegalAt(cfg, run, j);
    NoStopYet(cfg, run[..b]);
    ClosedIff(cfg, run[..b]);
    WaitingTold(cfg, run[..b]);
    WorksUntil(cfg, run, b, j);
    RunIsConsistent(cfg, run[..j]);
    if FactsOf(cfg, run[..j]).turn != Worked {
      MustWorkStep(cfg, FactsOf(cfg, run[..j]), run[j]);
    }
    TurnsTell(cfg, run[..j]);
  }

  // ---- the poll that announces ----

  lemma FailsTimedOut(cfg: Config, f: Facts, e: Event)
    requires Consistent(cfg, f) && Reading(cfg, f) && Allowed(cfg, f, e) && e.OnFail?
    ensures (TimedOut(f) <==> e.reason == IdleTimeout) && f.turn == Worked
    ensures TimedOut(Next(f, e)) == TimedOut(f) && Next(f, e).turn == Worked
  {
    hide Decided, LawfulDelay, RetryAfter, DefaultRetry, Accepted;
  }

  lemma SamePollStep(cfg: Config, f: Facts, e: Event)
    requires Consistent(cfg, f) && Allowed(cfg, f, e) && f.turn == Worked && !e.PollBegin? && !e.PollEnd?
    ensures Next(f, e).turn == Worked && TimedOut(Next(f, e)) == TimedOut(f)
  {
    hide Allowed, Next, TimedOut;
    TurnStep(cfg, f, e);
    TimedOutStep(cfg, f, e);
  }

  lemma {:induction false} SamePoll(cfg: Config, run: seq<Event>, i: nat, j: nat)
    requires Legal(cfg, run) && i < j <= |run| && run[i].OnFail?
    requires forall k :: i < k < j ==> !run[k].PollBegin? && !run[k].PollEnd?
    ensures var f := FactsOf(cfg, run[..j]);
            f.turn == Worked && (TimedOut(f) <==> run[i].reason == IdleTimeout)
    decreases j
  {
    hide Allowed, Next, Consistent, Reading, TimedOut;
    LegalAt(cfg, run, j - 1);
    RunIsConsistent(cfg, run[..j - 1]);
    if i + 1 < j {
      SamePoll(cfg, run, i, j - 1);
      SamePollStep(cfg, FactsOf(cfg, run[..j - 1]), run[j - 1]);
    } else {
      RunIsTruthful(cfg, run[..i]);
      FailsTimedOut(cfg, FactsOf(cfg, run[..i]), run[i]);
    }
  }

  /** The poll that announces a retry returns 0, but the read timeout after an idle
      timeout: then, and only then, its hint can exceed the time left. */
  lemma AnnouncingHint(cfg: Config, run: seq<Event>, i: nat, j: nat)
    requires Legal(cfg, run) && i < j < |run| && run[i].OnFail? && run[i].willRetry && run[j].PollEnd?
    requires forall k :: i < k < j ==> !run[k].PollBegin? && !run[k].PollEnd?
    requires !HasClosed(run[..j])
    ensures run[j].hint == if run[i].reason == IdleTimeout then cfg.readTimeout else 0
    ensures var due := run[i].at + run[i].delay;
            var left := if run[j].at < due then due - run[j].at else 0;
            run[j].hint > left <==> run[i].reason == IdleTimeout && cfg.readTimeout > left
  {
    hide Allowed, Next, TimeLeft, TimedOut, HasClosed;
    LegalAt(cfg, run, j);
    SamePoll(cfg, run, i, j);
    TurnsTell(cfg, run[..j]);
    ReadRemembered(cfg, run[..j]);
    HintExactly(cfg, run, j);
  }

  // ---- silence ----

  lemma StaysOpenWithin(cfg: Config, f: Facts, e: Event)
    requires Allowed(cfg, f, e) && e.PollEnd? && f.phase == Receiving && TimedOut(f)
    ensures cfg.idleTimeout == 0 || (e.at - f.lastRx) % TWO32 < cfg.idleTimeout
  {
    hide StreamTrace, HintLaw;
  }

  /** Silence is noticed: after a read that timed out the connection is still open
      only if bytes have come within the idle timeout, on a 32-bit clock. */
  lemma SilenceIsNoticed(cfg: Config, run: seq<Event>, i: nat, j: nat)
    requires Legal(cfg, run) && j < |run| && LastOpen(run, i, j) && Unended(run, i, j)
    requires run[j].PollEnd? && LastRead(run[..j]) == Some(0)
    ensures cfg.idleTimeout == 0 || (run[j].at - LastArrival(run[..j])) % TWO32 < cfg.idleTimeout
  {
    hide Allowed, Next, TimedOut, LastOpen, Unended;
    LegalAt(cfg, run, j);
    StillReceiving(cfg, run, i, j);
    HintOf(cfg, FactsOf(cfg, run[..j]), run[j]);
    TurnsTell(cfg, run[..j]);
    ReadRemembered(cfg, run[..j]);
    ArrivalRemembered(cfg, run[..j]);
    StaysOpenWithin(cfg, FactsOf(cfg, run[..j]), run[j]);
  }
}
