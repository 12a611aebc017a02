/** What the client decides about each attempt, in numbers and bytes: what it sends,
    which responses it accepts, why it fails, whether it tries again and why it
    closes. */
module RunDecisions {
  import opened Bytes
  import opened StreamSpec
  import opened StreamTheorems
  import opened Run
  import opened RunTheorems
  import opened RunDelivery
  import opened RunPolls

  // ---- what is sent ----

  /** `Accept: text/event-stream` */
  function AcceptBytes(): bytes {
    [65, 99, 99, 101, 112, 116, 58, 32, 116, 101, 120, 116, 47, 101, 118, 101, 110, 116, 45, 115, 116, 114,
     101, 97, 109]
  }

  /** `Cache-Control: no-store` */
  function NoStoreBytes(): bytes {
    [67, 97, 99, 104, 101, 45, 67, 111, 110, 116, 114, 111, 108, 58, 32, 110, 111, 45, 115, 116, 111, 114,
     101]
  }

  /** `Last-Event-ID: ` */
  function LabelBytes(): bytes {
    [76, 97, 115, 116, 45, 69, 118, 101, 110, 116, 45, 73, 68, 58, 32]
  }

  lemma HeaderBytes()
    ensures AcceptLine() == AcceptBytes() && NoStoreLine() == NoStoreBytes() && LastEventIdLabel() == LabelBytes()
  {
    AcceptIs();
    NoStoreIs();
    LabelIs();
  }

  lemma AcceptIs()
    ensures AcceptLine() == AcceptBytes()
  {
    var s := "Accept: text/event-stream";
    assert |s| == 25 == |AcceptBytes()|;
    assert forall i :: 0 <= i < 25 ==> s[i] as int == AcceptBytes()[i];
  }

  lemma NoStoreIs()
    ensures NoStoreLine() == NoStoreBytes()
  {
    var s := "Cache-Control: no-store";
    assert |s| == 23 == |NoStoreBytes()|;
    assert forall i :: 0 <= i < 23 ==> s[i] as int == NoStoreBytes()[i];
  }

  lemma LabelIs()
    ensures LastEventIdLabel() == LabelBytes()
  {
    var s := "Last-Event-ID: ";
    assert |s| == 15 == |LabelBytes()|;
    assert forall i :: 0 <= i < 15 ==> s[i] as int == LabelBytes()[i];
  }

  /** Every open sends these bytes: the two fixed lines, the line of the remembered id
      if there is one, and the user's lines; at most 16, with an id of at most 128. */
  lemma SentBytes(cfg: Config, run: seq<Event>, j: nat)
    requires Legal(cfg, run) && j < |run| && run[j].Opened?
    requires cfg.caps.id <= 129 && 3 + |cfg.extraHeaders| <= 16
    ensures var id := RememberedId(cfg, run[..j]);
            && run[j].headers == [AcceptBytes(), NoStoreBytes()] + (if id == [] then [] else [LabelBytes() + id]) +
                                 cfg.extraHeaders
            && |run[j].headers| <= 16 && |id| <= 128
  {
    hide Legal, RememberedId, AcceptBytes, NoStoreBytes, LabelBytes, AcceptLine, NoStoreLine, LastEventIdLabel;
    HeaderBytes();
    ResumeHeaders(cfg, run, j);
  }

  // ---- which responses are accepted ----

  /** `text/event-stream` */
  function TypeBytes(): bytes {
    [116, 101, 120, 116, 47, 101, 118, 101, 110, 116, 45, 115, 116, 114, 101, 97, 109]
  }

  /** That type in letters of either case, alone or before a NUL, a `;` or a space. */
  predicate NamesEventStream(ct: bytes) {
    && |ct| >= 17
    && (forall k :: 0 <= k < 17 ==>
          ct[k] == TypeBytes()[k] || (TypeBytes()[k] >= 97 && ct[k] == TypeBytes()[k] - 32))
    && (|ct| == 17 || ct[17] == 0 || ct[17] == 59 || ct[17] == 32)
  }

  lemma ContentTypeSpelled(ct: bytes)
    ensures IsEventStream(ct) <==> NamesEventStream(ct)
  {
    assert EventStream() == TypeBytes();
    if |ct| >= 17 {
      var l := Lowered(ct[..17]);
      assert forall k :: 0 <= k < 17 ==> l[k] == LowerCase(ct[k]) && 45 <= TypeBytes()[k] <= 122;
      assert l == TypeBytes() <==> forall k :: 0 <= k < 17 ==> l[k] == TypeBytes()[k];
      forall k | 0 <= k < 17
        ensures l[k] == TypeBytes()[k] <==>
                (ct[k] == TypeBytes()[k] || (TypeBytes()[k] >= 97 && ct[k] == TypeBytes()[k] - 32))
      {
        LetterCase(ct[k], TypeBytes()[k]);
      }
    }
  }

  /** A byte reads as a small letter, a hyphen or a slash in lower case. */
  lemma LetterCase(b: byte, small: byte)
    requires 97 <= small <= 122 || small == 45 || small == 47
    ensures LowerCase(b) == small <==> b == small || (small >= 97 && b == small - 32)
  {
  }

  predicate Acceptable(cfg: Config, r: Response) {
    r.status == 200 && (cfg.skipContentType || NamesEventStream(r.contentType))
  }

  lemma AcceptedSpelled(cfg: Config, r: Response)
    ensures Accepted(cfg, r) <==> Acceptable(cfg, r)
  {
    ContentTypeSpelled(r.contentType);
    hide NamesEventStream, IsEventStream;
  }

  // ---- why an attempt fails ----

  /** Has the last attempt got as far as on_open? */
  function Established(run: seq<Event>): bool {
    if run == [] then false
    else
      var e := run[|run| - 1];
      e.OnOpen? || (!e.Opened? && Established(run[..|run| - 1]))
  }

  lemma {:induction false} EstablishedTold(cfg: Config, run: seq<Event>)
    ensures FactsOf(cfg, run).established == Established(run)
  {
    hide Next;
    if run != [] {
      EstablishedTold(cfg, run[..|run| - 1]);
      EstablishedStep(FactsOf(cfg, run[..|run| - 1]), run[|run| - 1]);
    }
  }

  lemma EstablishedStep(f: Facts, e: Event)
    ensures Next(f, e).established == (e.OnOpen? || (!e.Opened? && f.established))
  {
    hide Due;
  }

  /** The reason and the status for what the run shows. */
  predicate Because(cfg: Config, run: seq<Event>, reason: Reason, status: int) {
    if Established(run) then status == 0 && reason == if LastRead(run) == Some(0) then IdleTimeout else Transport
    else match LastResponse(run)
      case None => reason == Transport && status == 0
      case Some(r) =>
        && status == r.status
        && reason == (if status == 204 then ServerStop else if status != 200 then HttpStatus else BadContentType)
        && !Acceptable(cfg, r)
  }

  lemma FailureExplained(cfg: Config, f: Facts, e: Event)
    requires Allowed(cfg, f, e) && (e.OnFail? || e.Asked?)
    ensures Explains(cfg, f.established, f.response, f.got, e.reason, e.status)
    ensures e.Asked? ==> e.advice == DefaultRetry(e.reason, e.status, RetryAfter(f.response, e.reason))
  {
    hide LawfulDelay, Decided, Explains, DefaultRetry, RetryAfter;
  }

  /** Every failure is reported, to the policy and to the user, with the reason and
      the status of what happened. */
  lemma FailureReason(cfg: Config, run: seq<Event>, j: nat)
    requires Legal(cfg, run) && j < |run| && (run[j].OnFail? || run[j].Asked?)
    ensures Because(cfg, run[..j], run[j].reason, run[j].status)
  {
    hide Allowed, Next, Consistent, Established, LastRead, LastResponse, NamesEventStream, Accepted;
    var before, e := run[..j], run[j];
    LegalAt(cfg, run, j);
    FailureExplained(cfg, FactsOf(cfg, before), e);
    EstablishedTold(cfg, before);
    ResponseRemembered(cfg, before);
    TurnsTell(cfg, before);
    TurnStep(cfg, FactsOf(cfg, before), e);
    ReadRemembered(cfg, before);
    if LastResponse(before).Some? {
      AcceptedSpelled(cfg, LastResponse(before).value);
    }
  }

  // ---- whether it tries again ----

  /** Not after a 204; after another status than 200 only if that is a server error, a
      429, or came with a Retry-After; after anything else. */
  predicate WorthRetrying(run: seq<Event>) {
    || Established(run)
    || match LastResponse(run)
       case None => true
       case Some(r) =>
         r.status == 200 || (r.status != 204 && (r.status >= 500 || r.status == 429 || r.retryAfter >= 0))
  }

  lemma WorthIsDefault(cfg: Config, f: Facts, run: seq<Event>, reason: Reason, status: int)
    requires Explains(cfg, f.established, f.response, f.got, reason, status)
    requires f.established == Established(run) && f.response == LastResponse(run)
    ensures DefaultRetry(reason, status, RetryAfter(f.response, reason)) <==> WorthRetrying(run)
  {
    hide Established, LastResponse, Accepted;
  }

  /** Without a policy hook this decides; with one, this is what it is told. */
  lemma RetryDecided(cfg: Config, run: seq<Event>, j: nat)
    requires Legal(cfg, run) && j < |run| && (run[j].OnFail? || run[j].Asked?)
    ensures run[j].OnFail? && !cfg.hasPolicy ==> (run[j].willRetry <==> WorthRetrying(run[..j]))
    ensures run[j].Asked? ==> (run[j].advice <==> WorthRetrying(run[..j]))
  {
    hide Allowed, Next, Established, LastResponse, Explains, DefaultRetry, RetryAfter, WorthRetrying;
    var before, e := run[..j], run[j];
    LegalAt(cfg, run, j);
    FailureExplained(cfg, FactsOf(cfg, before), e);
    EstablishedTold(cfg, before);
    ResponseRemembered(cfg, before);
    WorthIsDefault(cfg, FactsOf(cfg, before), before, e.reason, e.status);
    LawOfTheEvent(cfg, FactsOf(cfg, before), e);
  }

  /** The server has said to stop, and the client has not closed yet. */
  ghost predicate Stopping(f: Facts) {
    && f.response.Some? && f.response.value.status == 204 && !f.established
    && (f.phase == Connecting || f.phase == Failing || f.phase == Ending)
  }

  lemma StoppingStep(cfg: Config, f: Facts, e: Event)
    requires Consistent(cfg, f) && Allowed(cfg, f, e) && Stopping(f) && !cfg.hasPolicy && !e.OnClosed?
    ensures !e.PollEnd? && !e.Opened? && !e.OnOpen? && Stopping(Next(f, e))
    ensures e.OnFail? ==> !e.willRetry
  {
    hide HintLaw, StaysOpen, LawfulDelay, ExpectedHeaders, StreamTrace, WellFormed, Due, NextInTrace;
  }

  lemma StoppingStarts(f: Facts, e: Event)
    requires e.Opened? && e.response.Some? && e.response.value.status == 204
    ensures Stopping(Next(f, e))
  {
  }

  lemma {:induction false} StoppingRemains(cfg: Config, run: seq<Event>, i: nat, j: nat)
    requires Legal(cfg, run) && !cfg.hasPolicy && i < j <= |run|
    requires run[i].Opened? && run[i].response.Some? && run[i].response.value.status == 204
    requires forall k :: i < k < j ==> !run[k].OnClosed?
    ensures Stopping(FactsOf(cfg, run[..j]))
    decreases j
  {
    hide Allowed, Next, Consistent, Stopping;
    LegalAt(cfg, run, j - 1);
    if i + 1 < j {
      StoppingRemains(cfg, run, i, j - 1);
      RunIsConsistent(cfg, run[..j - 1]);
      StoppingStep(cfg, FactsOf(cfg, run[..j - 1]), run[j - 1]);
    } else {
      StoppingStarts(FactsOf(cfg, run[..i]), run[i]);
    }
  }

  /** After a 204, without a policy hook, on_closed comes before the poll ends and
      before any further open, and no retry is announced before it. */
  lemma ServerStopCloses(cfg: Config, run: seq<Event>, i: nat, j: nat)
    requires Legal(cfg, run) && !cfg.hasPolicy && i < j < |run|
    requires run[i].Opened? && run[i].response.Some? && run[i].response.value.status == 204
    requires run[j].PollEnd? || run[j].Opened? || run[j].OnOpen? || (run[j].OnFail? && run[j].willRetry)
    ensures exists k :: i < k < j && run[k].OnClosed?
  {
    hide Allowed, Next, Consistent, Stopping;
    if forall k :: i < k < j ==> !run[k].OnClosed? {
      StoppingRemains(cfg, run, i, j);
      LegalAt(cfg, run, j);
      RunIsConsistent(cfg, run[..j]);
      StoppingStep(cfg, FactsOf(cfg, run[..j]), run[j]);
    }
  }

  // ---- every attempt is answered ----

  /** on_open comes only after an acceptable response. */
  lemma OpenIsAccepted(cfg: Config, run: seq<Event>, j: nat)
    requires Legal(cfg, run) && j < |run| && run[j].OnOpen?
    ensures LastResponse(run[..j]).Some? && Acceptable(cfg, LastResponse(run[..j]).value)
  {
    hide Next, Accepted, Acceptable;
    LegalAt(cfg, run, j);
    ResponseRemembered(cfg, run[..j]);
    AcceptedSpelled(cfg, LastResponse(run[..j]).value);
  }

  /** An attempt that neither the user nor the policy has heard of. */
  ghost predicate Unanswered(f: Facts, r: Option<Response>) {
    && f.response == r && !f.established && f.turn == Worked && !f.doomed && !f.userRuns
    && (f.phase == Connecting || f.phase == Failing) && (f.phase == Connecting ==> r.Some?)
  }

  lemma UnansweredStep(cfg: Config, f: Facts, e: Event, r: Option<Response>)
    requires Consistent(cfg, f) && Allowed(cfg, f, e) && Unanswered(f, r)
    ensures !e.PollEnd?
    ensures Unanswered(Next(f, e), r) || e.OnOpen? || e.Asked? || e.OnFail?
    ensures e.OnOpen? ==> r.Some? && Accepted(cfg, r.value)
    ensures e.Asked? || e.OnFail? ==> !(r.Some? && Accepted(cfg, r.value))
  {
    hide HintLaw, StaysOpen, LawfulDelay, ExpectedHeaders, StreamTrace, WellFormed, Due, Decided, DefaultRetry;
    hide RetryAfter;
  }

  lemma UnansweredStarts(cfg: Config, f: Facts, e: Event)
    requires Allowed(cfg, f, e) && e.Opened?
    ensures Unanswered(Next(f, e), e.response)
  {
    hide ExpectedHeaders;
  }

  lemma {:induction false} FirstAnswer(cfg: Config, run: seq<Event>, i: nat, j: nat) returns (k: nat)
    requires Legal(cfg, run) && i < j < |run| && run[i].Opened? && run[j].PollEnd?
    ensures i < k < j && Unanswered(FactsOf(cfg, run[..k]), run[i].response)
    ensures run[k].OnOpen? || run[k].Asked? || run[k].OnFail?
  {
    hide Allowed, Next, Consistent, Unanswered;
    k := i + 1;
    LegalAt(cfg, run, i);
    UnansweredStarts(cfg, FactsOf(cfg, run[..i]), run[i]);
    while k < j && !run[k].OnOpen? && !run[k].Asked? && !run[k].OnFail?
      invariant i < k <= j && Unanswered(FactsOf(cfg, run[..k]), run[i].response)
    {
      LegalAt(cfg, run, k);
      RunIsConsistent(cfg, run[..k]);
      UnansweredStep(cfg, FactsOf(cfg, run[..k]), run[k], run[i].response);
      k := k + 1;
    }
    if k == j {
      LegalAt(cfg, run, j);
      RunIsConsistent(cfg, run[..j]);
      UnansweredStep(cfg, FactsOf(cfg, run[..j]), run[j], run[i].response);
    }
  }

  /** Before its poll ends, every open has led to on_open, if the response is
      acceptable, and else to a failure that the policy or the user has heard of. */
  lemma EveryOpenAnswered(cfg: Config, run: seq<Event>, i: nat, j: nat) returns (k: nat)
    requires Legal(cfg, run) && i < j < |run| && run[i].Opened? && run[j].PollEnd?
    ensures i < k < j
    ensures if run[i].response.Some? && Acceptable(cfg, run[i].response.value) then run[k].OnOpen?
            else run[k].OnFail? || (cfg.hasPolicy && run[k].Asked?)
  {
    hide Allowed, Next, Consistent, Unanswered, Accepted, Acceptable;
    k := FirstAnswer(cfg, run, i, j);
    LegalAt(cfg, run, k);
    RunIsConsistent(cfg, run[..k]);
    UnansweredStep(cfg, FactsOf(cfg, run[..k]), run[k], run[i].response);
    if run[k].Asked? {
      AskedOfPolicy(cfg, FactsOf(cfg, run[..k]), run[k]);
    }
    if run[i].response.Some? {
      AcceptedSpelled(cfg, run[i].response.value);
    }
  }

  lemma AskedOfPolicy(cfg: Config, f: Facts, e: Event)
    requires Allowed(cfg, f, e) && e.Asked?
    ensures cfg.hasPolicy
  {
    hide Explains, DefaultRetry;
  }

  // ---- why it closes ----

  /** The user closed it, another task asked it to stop, or a failure was reported
      that will not be retried. */
  predicate IsCause(e: Event) {
    e.CloseCalled? || e.StopRequested? || (e.OnFail? && !e.willRetry)
  }

  predicate HasCause(run: seq<Event>) {
    exists k :: 0 <= k < |run| && IsCause(run[k])
  }

  lemma CauseStep(cfg: Config, f: Facts, e: Event)
    requires Allowed(cfg, f, e)
    ensures Next(f, e).doomed || Next(f, e).stopped || Next(f, e).phase == Ending || Next(f, e).phase == Closed ==>
              || f.doomed || f.stopped || f.phase == Ending || f.phase == Closed
              || IsCause(e)
  {
    hide HintLaw, StaysOpen, LawfulDelay, ExpectedHeaders, StreamTrace, WellFormed, Due, Decided, DefaultRetry;
    hide RetryAfter, Explains, Accepted, NextInTrace;
  }

  lemma {:induction false} CauseTold(cfg: Config, run: seq<Event>)
    requires Legal(cfg, run)
    ensures var f := FactsOf(cfg, run);
            f.doomed || f.stopped || f.phase == Ending || f.phase == Closed ==> HasCause(run)
  {
    hide Allowed, Next, IsCause;
    if run != [] {
      var n := |run| - 1;
      CauseTold(cfg, run[..n]);
      CauseStep(cfg, FactsOf(cfg, run[..n]), run[n]);
      if HasCause(run[..n]) {
        var k :| 0 <= k < n && IsCause(run[..n][k]);
        assert run[k] == run[..n][k];
      }
    }
  }

  /** on_closed never comes without a cause before it. */
  lemma ClosedForACause(cfg: Config, run: seq<Event>, j: nat)
    requires Legal(cfg, run) && j < |run| && run[j].OnClosed?
    ensures HasCause(run[..j])
  {
    hide Next, HasCause;
    LegalAt(cfg, run, j);
    CauseTold(cfg, run[..j]);
  }

  /** Is a user callback running: the last thing that happened but a stop request? */
  function Speaking(run: seq<Event>): bool {
    if run == [] then false
    else
      var e := run[|run| - 1];
      if e.StopRequested? then Speaking(run[..|run| - 1])
      else e.OnOpen? || e.OnMessage? || e.OnInfo? || e.Asked? || e.OnFail? || e.OnClosed?
  }

  lemma {:induction false} SpeakingTold(cfg: Config, run: seq<Event>)
    ensures FactsOf(cfg, run).userRuns == Speaking(run)
  {
    hide Next;
    if run != [] {
      SpeakingTold(cfg, run[..|run| - 1]);
      SpeakingStep(FactsOf(cfg, run[..|run| - 1]), run[|run| - 1]);
    }
  }

  lemma SpeakingStep(f: Facts, e: Event)
    ensures Next(f, e).userRuns ==
            if e.StopRequested? then f.userRuns
            else e.OnOpen? || e.OnMessage? || e.OnInfo? || e.Asked? || e.OnFail? || e.OnClosed?
  {
    if e.Parsed? {
      ParsedKeeps(f, e.cb);
    }
    hide NextParsed;
  }

  /** A close is the user's own: from one of the callbacks, where the user wants it, or
      between two polls. */
  lemma ClosingIsTheUsers(cfg: Config, run: seq<Event>, j: nat)
    requires Legal(cfg, run) && j < |run| && run[j].CloseCalled?
    ensures !InPoll(run[..j]) || (Speaking(run[..j]) && cfg.world.closeIn(FactsOf(cfg, run[..j]).calls))
  {
    hide Next;
    LegalAt(cfg, run, j);
    SpeakingTold(cfg, run[..j]);
    TurnsTell(cfg, run[..j]);
  }
}
