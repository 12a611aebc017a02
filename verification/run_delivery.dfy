/** What reaches the user of a connection, however it ends: the messages of the
    bytes that were read on it, and never anything else. */
module RunDelivery {
  import opened Bytes
  import opened Lines
  import opened StreamSpec
  import opened StreamTheorems
  import opened Messages
  import opened HtmlStandard
  import opened Run
  import opened RunTheorems

  // ---- what some events deliver, parse and read ----

  function MessagesIn(run: seq<Event>): seq<Message> {
    if run == [] then [] else MessagesIn(run[..|run| - 1]) + Told(run[|run| - 1])
  }

  /** The bytes that went to the parser. */
  function BytesIn(run: seq<Event>): bytes {
    if run == [] then [] else BytesIn(run[..|run| - 1]) + Parsed(run[|run| - 1])
  }

  /** The bytes that the transport handed over. */
  function ReadIn(run: seq<Event>): bytes {
    if run == [] then [] else ReadIn(run[..|run| - 1]) + Read(run[|run| - 1])
  }

  /** The informational errors. */
  function InfosIn(run: seq<Event>): seq<Info> {
    if run == [] then [] else InfosIn(run[..|run| - 1]) + Informed(run[|run| - 1])
  }

  function Informed(e: Event): seq<Info> {
    if e.OnInfo? then [e.info] else []
  }

  /** Those that some discard errors call for. */
  function Infos(discards: seq<Callback>): seq<Info> {
    if discards == [] then [] else Infos(discards[..|discards| - 1]) + InfoOf(discards[|discards| - 1])
  }

  function InfoOf(cb: Callback): seq<Info> {
    if !Is(Discards, cb) then []
    else if cb.err == DataTooLarge then [MessageTooLarge]
    else [EventTypeRejected]
  }

  /** What the user must be told about the callbacks `cbs`. */
  function InfosFor(cbs: seq<Callback>): seq<Info> {
    Infos(Select(Discards, cbs))
  }

  function Told(e: Event): seq<Message> {
    if e.OnMessage? then [e.message] else []
  }

  function Parsed(e: Event): bytes {
    if e.Fed? then e.chunk else []
  }

  function Read(e: Event): bytes {
    if e.ReadDone? then Taken(e.got) else []
  }

  function Taken(got: Got): bytes {
    if 0 < got.count <= |got.data| then got.data[..got.count] else []
  }

  lemma Snoc(run: seq<Event>, i: nat, j: nat)
    requires i < j <= |run|
    ensures MessagesIn(run[i..j]) == MessagesIn(run[i..j - 1]) + Told(run[j - 1])
    ensures BytesIn(run[i..j]) == BytesIn(run[i..j - 1]) + Parsed(run[j - 1])
    ensures ReadIn(run[i..j]) == ReadIn(run[i..j - 1]) + Read(run[j - 1])
  {
    assert run[i..j][..j - i - 1] == run[i..j - 1];
  }

  lemma FactsSnoc(cfg: Config, run: seq<Event>, j: nat)
    requires 0 < j <= |run|
    ensures FactsOf(cfg, run[..j]) == Next(FactsOf(cfg, run[..j - 1]), run[j - 1])
  {
    assert run[..j][..j - 1] == run[..j - 1];
  }

  // ---- the facts about the connection are those of its events ----

  /** The connection that opened at `i` is the last one before `j`. */
  ghost predicate LastOpen(run: seq<Event>, i: nat, j: nat) {
    i < j <= |run| && run[i].OnOpen? && forall k :: i < k < j ==> !run[k].OnOpen?
  }

  ghost predicate NoneOpened(run: seq<Event>, i: nat, j: nat) {
    j <= |run| && forall k :: i < k < j ==> !run[k].Opened?
  }

  lemma OpenStep(f: Facts, e: Event)
    requires e.OnOpen?
    ensures var g := Next(f, e);
            g.delivered == [] && g.stream == [] && g.idAtOpen == f.lastId && g.established && g.got == f.got
  {
  }

  lemma ConnectionStep(f: Facts, e: Event)
    requires !e.OnOpen?
    ensures Next(f, e).delivered == f.delivered + Told(e) && Next(f, e).stream == f.stream + Parsed(e)
    ensures Next(f, e).idAtOpen == f.idAtOpen && (f.established && !e.Opened? ==> Next(f, e).established)
  {
    if e.Parsed? {
      ParsedKeeps(f, e.cb);
    }
    hide NextParsed;
    assert f.delivered + [] == f.delivered && f.stream + [] == f.stream;
  }

  lemma Earlier(run: seq<Event>, i: nat, j: nat)
    requires LastOpen(run, i, j)
    ensures i < j <= |run| && run[i].OnOpen?
    ensures i + 1 < j ==> LastOpen(run, i, j - 1) && !run[j - 1].OnOpen?
    ensures i + 1 < j && NoneOpened(run, i, j) ==> NoneOpened(run, i, j - 1) && !run[j - 1].Opened?
  {
  }

  lemma NothingYet(run: seq<Event>, i: nat)
    requires i <= |run|
    ensures MessagesIn(run[i..i]) == [] && BytesIn(run[i..i]) == ReadIn(run[i..i]) == []
  {
  }

  lemma {:induction false} ConnectionFacts(cfg: Config, run: seq<Event>, i: nat, j: nat)
    requires LastOpen(run, i, j)
    ensures var f := FactsOf(cfg, run[..j]);
            && f.delivered == MessagesIn(run[i + 1..j]) && f.stream == BytesIn(run[i + 1..j])
            && f.idAtOpen == FactsOf(cfg, run[..i]).lastId
            && (NoneOpened(run, i, j) ==> f.established)
    decreases j
  {
    hide Next, FactsOf, MessagesIn, BytesIn, ReadIn, Told, Parsed, Read, LastOpen, NoneOpened;
    Earlier(run, i, j);
    FactsSnoc(cfg, run, j);
    if j == i + 1 {
      OpenStep(FactsOf(cfg, run[..i]), run[i]);
      NothingYet(run, i + 1);
    } else {
      ConnectionFacts(cfg, run, i, j - 1);
      ConnectionStep(FactsOf(cfg, run[..j - 1]), run[j - 1]);
      Snoc(run, i + 1, j);
    }
  }

  // ---- nothing but the stream's own messages ----

  /** The message that must come next. */
  function Owing(f: Facts): seq<Message> {
    if f.owed.Some? then Told(f.owed.value) else []
  }

  /** What was delivered comes from the parser's callbacks, and these are the
      first of those that the bytes parsed so far cause: all of them before more
      is read, and whenever bytes wait to be parsed. */
  ghost predicate Truthful(cfg: Config, f: Facts) {
    && f.lastId == LastId(f.idAtOpen, f.callbacks)
    && Delivered(f.idAtOpen, f.callbacks) == f.delivered + Owing(f)
    && f.callbacks <= StreamTrace(cfg.caps, f.stream)
    && (f.got.Some? || (f.phase == Receiving && f.turn != Worked) ==>
          f.callbacks == StreamTrace(cfg.caps, f.stream))
  }

  lemma TruthfulParsed(cfg: Config, f: Facts, cb: Callback)
    requires Truthful(cfg, f) && f.owed.None? && f.phase == Receiving && NextInTrace(cfg, f, cb)
    ensures Truthful(cfg, NextParsed(f, cb))
  {
    DeliveredConcat(f.idAtOpen, f.callbacks, [cb]);
    DeliveredOne(f.lastId, cb);
    hide Delivered, LastId, StreamTrace;
  }

  lemma DeliveredOne(id: bytes, cb: Callback)
    ensures LastId(id, [cb]) == if cb.OnId? then cb.value else id
    ensures Delivered(id, [cb]) ==
            if cb.OnEvent? then [Message(if cb.event.Some? then cb.event.value else MESSAGE, cb.data, id)] else []
  {
    assert [cb][1..] == [];
  }

  /** Events that change nothing about what was parsed and delivered. */
  predicate Quiet(e: Event) {
    !e.Parsed? && !e.Fed? && !e.OnOpen? && !e.OnMessage? && !e.OnInfo?
  }

  predicate SameConnection(f: Facts, g: Facts) {
    && g.lastId == f.lastId && g.idAtOpen == f.idAtOpen && g.callbacks == f.callbacks
    && g.delivered == f.delivered && g.stream == f.stream && g.owed == f.owed
  }

  lemma QuietKeeps(f: Facts, e: Event)
    requires Quiet(e)
    ensures SameConnection(f, Next(f, e))
  {
    hide Next, SameConnection;
    if e.PollBegin? || e.PollEnd? || e.ReadDone? || e.StopRequested? || e.CloseCalled? {
      PollKeeps(f, e);
    } else {
      CallKeeps(f, e);
    }
  }

  lemma PollKeeps(f: Facts, e: Event)
    requires e.PollBegin? || e.PollEnd? || e.ReadDone? || e.StopRequested? || e.CloseCalled?
    ensures SameConnection(f, Next(f, e))
  {
    hide NextParsed;
  }

  lemma CallKeeps(f: Facts, e: Event)
    requires e.Opened? || e.Shut? || e.Asked? || e.OnFail? || e.OnClosed?
    ensures SameConnection(f, Next(f, e))
  {
    hide NextParsed;
    match e {
      case Opened(_, _, _) => assert SameConnection(f, Next(f, e));
      case Shut => assert SameConnection(f, Next(f, e));
      case Asked(_, _, _, _) => assert SameConnection(f, Next(f, e));
      case OnFail(_, _, _, _, _) => assert SameConnection(f, Next(f, e));
      case OnClosed => assert SameConnection(f, Next(f, e));
      case _ =>
    }
  }

  /** Bytes are read only when all before are parsed, and a poll ends only then. */
  lemma QuietReads(cfg: Config, f: Facts, e: Event)
    requires Consistent(cfg, f) && Truthful(cfg, f) && Allowed(cfg, f, e) && Quiet(e)
    ensures var g := Next(f, e);
            g.got.Some? || (g.phase == Receiving && g.turn != Worked) ==> f.callbacks == StreamTrace(cfg.caps, f.stream)
  {
    hide HintLaw, LawfulDelay, Decided, ExpectedHeaders, StreamTrace, Explains, DefaultRetry, Accepted, RetryAfter;
    hide Delivered, LastId;
  }

  lemma TruthfulTold(cfg: Config, f: Facts, e: Event)
    requires Consistent(cfg, f) && Truthful(cfg, f) && Allowed(cfg, f, e) && (e.OnMessage? || e.OnInfo?)
    ensures Truthful(cfg, Next(f, e))
  {
    hide Delivered, LastId, StreamTrace;
    assert Next(f, e).delivered + [] == Next(f, e).delivered;
  }

  lemma TruthfulOpen(cfg: Config, f: Facts, e: Event)
    requires Consistent(cfg, f) && Truthful(cfg, f) && Allowed(cfg, f, e) && e.OnOpen?
    ensures Truthful(cfg, Next(f, e))
  {
    NothingDelivered(f.lastId, []);
    hide Delivered, LastId, StreamTrace, Accepted;
  }

  lemma TruthfulFed(cfg: Config, f: Facts, e: Event)
    requires Consistent(cfg, f) && Truthful(cfg, f) && Allowed(cfg, f, e) && e.Fed?
    ensures Truthful(cfg, Next(f, e))
  {
    hide Delivered, LastId, StreamTrace;
    TraceGrows(cfg.caps, f.stream, e.chunk);
  }

  lemma TruthfulNext(cfg: Config, f: Facts, e: Event)
    requires Consistent(cfg, f) && Truthful(cfg, f) && Allowed(cfg, f, e)
    ensures Truthful(cfg, Next(f, e))
  {
    hide StreamTrace, WellFormed, Due, Delivered, LastId;
    if e.Parsed? {
      hide NextInTrace, NextParsed;
      if f.phase == Receiving {
        TruthfulParsed(cfg, f, e.cb);
      } else {
        ParsedIgnored(f, e.cb);
      }
    } else {
      hide Next, Allowed, Consistent;
      if e.Fed? {
        TruthfulFed(cfg, f, e);
      } else if e.OnOpen? {
        TruthfulOpen(cfg, f, e);
      } else if e.OnMessage? || e.OnInfo? {
        TruthfulTold(cfg, f, e);
      } else {
        QuietKeeps(f, e);
        QuietReads(cfg, f, e);
      }
    }
  }

  lemma ParsedIgnored(f: Facts, cb: Callback)
    requires f.phase != Receiving
    ensures NextParsed(f, cb) == f.(userRuns := false)
  {
  }

  /** What has been read and not parsed yet. */
  function Pending(f: Facts): bytes {
    if f.got.Some? then Taken(f.got.value) else []
  }

  /** Bytes wait to be parsed only on a connection that has not ended, or when the
      client must close. */
  ghost predicate Reading(cfg: Config, f: Facts) {
    && (f.phase == Receiving ==> f.established)
    && (f.phase == Failing && !f.established ==> f.turn == Worked)
    && (f.got.Some? ==> f.established && |f.got.value.data| == cfg.rxLen)
    && (!f.doomed && f.phase != Connecting && f.phase != Receiving && f.phase != Failing ==> Pending(f) == [])
  }

  lemma ReadingKept(cfg: Config, f: Facts, e: Event)
    requires Consistent(cfg, f) && Reading(cfg, f) && Allowed(cfg, f, e)
    ensures Reading(cfg, Next(f, e))
    ensures e.OnFail? && f.established ==> Pending(f) == []
  {
    if e.Parsed? {
      ParsedKeeps(f, e.cb);
    }
    hide HintLaw, LawfulDelay, Decided, ExpectedHeaders, StreamTrace, DefaultRetry, Accepted, WellFormed, Due;
    hide RetryAfter, NextInTrace, NextParsed;
  }

  /** What is read becomes pending, and what is pending is parsed. */
  lemma ReadingNext(cfg: Config, f: Facts, e: Event)
    requires Consistent(cfg, f) && Reading(cfg, f) && Allowed(cfg, f, e)
    ensures Reading(cfg, Next(f, e))
    ensures e.OnOpen? ==> Pending(Next(f, e)) == []
    ensures !e.OnOpen? && !Next(f, e).doomed ==> Pending(f) + Read(e) == Parsed(e) + Pending(Next(f, e))
    ensures Next(f, e).doomed ==> f.doomed || Parsed(e) == []
    ensures f.doomed ==> Parsed(e) == [] && Next(f, e).doomed
    ensures e.OnFail? && f.established ==> Pending(f) == []
  {
    ReadingKept(cfg, f, e);
    if e.Parsed? {
      ParsedKeeps(f, e.cb);
    }
    hide HintLaw, LawfulDelay, Decided, ExpectedHeaders, StreamTrace, DefaultRetry, Accepted, WellFormed, Due;
    hide RetryAfter, NextInTrace, NextParsed, Explains;
  }

  lemma {:induction false} RunIsTruthful(cfg: Config, run: seq<Event>)
    requires Legal(cfg, run)
    ensures Truthful(cfg, FactsOf(cfg, run)) && Reading(cfg, FactsOf(cfg, run))
  {
    hide Allowed, Next;
    if run == [] {
      assert Truthful(cfg, Start(cfg)) && Reading(cfg, Start(cfg));
    } else {
      var init, e := run[..|run| - 1], run[|run| - 1];
      RunIsTruthful(cfg, init);
      RunIsConsistent(cfg, init);
      hide Consistent, Truthful, Reading;
      TruthfulNext(cfg, FactsOf(cfg, init), e);
      ReadingNext(cfg, FactsOf(cfg, init), e);
    }
  }

  /** What is parsed was read before, in the same order, and nothing read is left
      out unless the client must close. */
  lemma {:induction false} ReadAndParsed(cfg: Config, run: seq<Event>, i: nat, j: nat)
    requires Legal(cfg, run) && LastOpen(run, i, j)
    ensures BytesIn(run[i + 1..j]) <= ReadIn(run[i + 1..j])
    ensures var f := FactsOf(cfg, run[..j]);
            f.doomed || ReadIn(run[i + 1..j]) == BytesIn(run[i + 1..j]) + Pending(f)
    decreases j
  {
    hide Allowed, Next, Consistent, Truthful, Reading, Pending, Read, Parsed, LastOpen, MessagesIn, BytesIn, ReadIn;
    Earlier(run, i, j);
    LegalAt(cfg, run, j - 1);
    var f, e := FactsOf(cfg, run[..j - 1]), run[j - 1];
    RunIsConsistent(cfg, run[..j - 1]);
    RunIsTruthful(cfg, run[..j - 1]);
    ReadingNext(cfg, f, e);
    if i + 1 < j {
      ReadAndParsed(cfg, run, i, j - 1);
      Snoc(run, i + 1, j);
      hide *;
      var was := BytesIn(run[i + 1..j - 1]);
      MovesOn(was, ReadIn(run[i + 1..j - 1]), Pending(f), Read(e), Parsed(e), Pending(Next(f, e)), f.doomed,
              Next(f, e).doomed);
    } else {
      NothingYet(run, j);
    }
  }

  /** Bytes that are read become pending, and pending ones are parsed. */
  lemma MovesOn(parsed: bytes, read: bytes, pending: bytes, more: bytes, fed: bytes, left: bytes, was: bool, now: bool)
    requires parsed <= read && (was || read == parsed + pending)
    requires (now || pending + more == fed + left) && (now ==> was || fed == []) && (was ==> fed == [] && now)
    ensures parsed + fed <= read + more && (now || read + more == (parsed + fed) + left)
  {
    if !now {
      ConcatAssociates(parsed, pending, more);
      ConcatAssociates(parsed, fed, left);
    }
  }

  // ---- informational errors ----

  lemma {:induction false} InfosConcat(a: seq<Callback>, b: seq<Callback>)
    ensures Infos(a + b) == Infos(a) + Infos(b)
  {
    if b == [] {
      assert a + b == a;
    } else {
      var init, last := b[..|b| - 1], b[|b| - 1];
      assert (a + b)[..|a + b| - 1] == a + init;
      InfosConcat(a, init);
      ConcatAssociates(Infos(a), Infos(init), InfoOf(last));
    }
  }

  lemma InfosForConcat(a: seq<Callback>, b: seq<Callback>)
    ensures InfosFor(a + b) == InfosFor(a) + InfosFor(b)
  {
    SelectConcat(Discards, a, b);
    InfosConcat(Select(Discards, a), Select(Discards, b));
  }

  lemma InfosForOne(cb: Callback)
    ensures InfosFor([cb]) == InfoOf(cb)
  {
    SelectOne(Discards, cb);
    var one := [cb];
    assert one[..0] == [];
    assert Infos(one) == Infos(one[..0]) + InfoOf(cb);
  }

  /** The informational error that must come next. */
  function OwingInfo(f: Facts): seq<Info> {
    if f.owed.Some? then Informed(f.owed.value) else []
  }

  /** Each event adds to the callbacks what it calls for, now or next. */
  lemma InfoStep(cfg: Config, f: Facts, e: Event)
    requires Consistent(cfg, f) && Allowed(cfg, f, e) && !e.OnOpen?
    ensures OwingInfo(f) + (if e.Parsed? && f.phase == Receiving then InfoOf(e.cb) else []) ==
            Informed(e) + OwingInfo(Next(f, e))
    ensures Next(f, e).callbacks == f.callbacks + if e.Parsed? && f.phase == Receiving then [e.cb] else []
  {
    hide HintLaw, StaysOpen, LawfulDelay, Decided, ExpectedHeaders, StreamTrace, Explains, DefaultRetry, Accepted;
    hide WellFormed, RetryAfter, NextInTrace;
  }

  lemma OpenInforms(cfg: Config, f: Facts, e: Event)
    requires Consistent(cfg, f) && Allowed(cfg, f, e) && e.OnOpen?
    ensures Next(f, e).callbacks == [] && OwingInfo(Next(f, e)) == []
  {
    hide Accepted;
  }

  lemma {:induction false} InfosTold(cfg: Config, run: seq<Event>, i: nat, j: nat)
    requires Legal(cfg, run) && LastOpen(run, i, j)
    ensures var f := FactsOf(cfg, run[..j]);
            InfosFor(f.callbacks) == InfosIn(run[i + 1..j]) + OwingInfo(f)
    decreases j
  {
    hide Allowed, Next, Consistent, LastOpen, InfosIn, InfosFor, OwingInfo, Informed, InfoOf;
    Earlier(run, i, j);
    LegalAt(cfg, run, j - 1);
    var f, e := FactsOf(cfg, run[..j - 1]), run[j - 1];
    RunIsConsistent(cfg, run[..j - 1]);
    if i + 1 < j {
      InfosTold(cfg, run, i, j - 1);
      InfosSnoc(run, i + 1, j);
      InfoStep(cfg, f, e);
      var now := if e.Parsed? && f.phase == Receiving then [e.cb] else [];
      var info := if e.Parsed? && f.phase == Receiving then InfoOf(e.cb) else [];
      InfosForConcat(f.callbacks, now);
      if now != [] {
        InfosForOne(e.cb);
      } else {
        NoInfos();
      }
      hide *;
      ConcatAssociates(InfosIn(run[i + 1..j - 1]), OwingInfo(f), info);
      ConcatAssociates(InfosIn(run[i + 1..j - 1]), Informed(e), OwingInfo(Next(f, e)));
    } else {
      OpenInforms(cfg, f, e);
      NoInfos();
      InfosSnoc(run, j, j);
    }
  }

  lemma NoInfos()
    ensures InfosFor([]) == []
  {
  }

  lemma InfosSnoc(run: seq<Event>, i: nat, j: nat)
    requires i <= j <= |run|
    ensures i == j ==> InfosIn(run[i..j]) == []
    ensures i < j ==> InfosIn(run[i..j]) == InfosIn(run[i..j - 1]) + Informed(run[j - 1])
  {
    if i < j {
      assert run[i..j][..j - i - 1] == run[i..j - 1];
    }
  }

  /** Prefix-closed, like the messages. */
  lemma InfosPrefix(a: seq<Callback>, b: seq<Callback>)
    requires a <= b
    ensures InfosFor(a) <= InfosFor(b)
  {
    hide InfosFor;
    InfosForConcat(a, b[|a|..]);
    assert b == a + b[|a|..];
  }

  /** At every moment after a connection opened, whether it is open, has failed or
      was closed from a callback in the middle of a chunk, the messages delivered on
      it are the first of those of its bytes, read line by line with the last event
      id carried over from the connections before. */
  lemma DeliveryIsFaithful(cfg: Config, run: seq<Event>, i: nat, j: nat)
    requires Legal(cfg, run) && LastOpen(run, i, j)
    ensures var id, parsed := RememberedId(cfg, run[..i]), BytesIn(run[i + 1..j]);
            && parsed <= ReadIn(run[i + 1..j])
            && MessagesIn(run[i + 1..j]) <= Delivered(id, StreamTrace(cfg.caps, parsed))
            && InfosIn(run[i + 1..j]) <= InfosFor(StreamTrace(cfg.caps, parsed))
  {
    hide Allowed, Next, Consistent, RememberedId, Reading, StreamTrace, Delivered, InfosFor, InfosIn, OwingInfo;
    LegalAt(cfg, run, j - 1);
    RunIsTruthful(cfg, run[..j]);
    ReadAndParsed(cfg, run, i, j);
    ConnectionFacts(cfg, run, i, j);
    LegalAt(cfg, run, i);
    FactsRemember(cfg, run[..i]);
    var f := FactsOf(cfg, run[..j]);
    DeliveredPrefix(f.idAtOpen, f.callbacks, StreamTrace(cfg.caps, f.stream));
    InfosTold(cfg, run, i, j);
    InfosPrefix(f.callbacks, StreamTrace(cfg.caps, f.stream));
  }

  lemma DeliveredPrefix(id: bytes, a: seq<Callback>, b: seq<Callback>)
    requires a <= b
    ensures Delivered(id, a) <= Delivered(id, b)
  {
    DeliveredConcat(id, a, b[|a|..]);
    assert b == a + b[|a|..];
  }

  ghost predicate Unended(run: seq<Event>, i: nat, j: nat) {
    j <= |run| && forall k :: i < k < j ==> !EndsConnection(run[k])
  }

  /** The connection that opened at `i` is still open when a poll ends, or its
      failure is being reported. */
  ghost predicate AtRest(run: seq<Event>, i: nat, j: nat) {
    && j < |run|
    && if run[j].PollEnd? then Unended(run, i, j)
       else run[j].OnFail? && NoneOpened(run, i, j)
  }

  /** Nothing is lost: when a poll ends with the connection open, or its failure is
      reported, everything that was read has been parsed and all its messages have
      been delivered, and every discarded block has been reported. The messages are
      what the standard dispatches, reading with whatever last event id, exactly when
      the lines conform from there. */
  lemma DeliveryIsComplete(cfg: Config, run: seq<Event>, i: nat, j: nat)
    requires Legal(cfg, run) && LastOpen(run, i, j) && AtRest(run, i, j)
    ensures var id, read := RememberedId(cfg, run[..i]), ReadIn(run[i + 1..j]);
            && BytesIn(run[i + 1..j]) == read
            && MessagesIn(run[i + 1..j]) == Delivered(id, StreamTrace(cfg.caps, read))
            && InfosIn(run[i + 1..j]) == InfosFor(StreamTrace(cfg.caps, read))
            && forall other ::
                 MessagesIn(run[i + 1..j]) == ReadStream(other, read) <==>
                 Conforms(cfg.caps, Resumed(id, other), SplitLines(StripBom(read)).lines)
  {
    hide Allowed, Next, Consistent, RememberedId, Reading, Truthful, StreamTrace, Delivered, ReadStream, Conforms;
    hide Pending, InfosFor, InfosIn, OwingInfo;
    LegalAt(cfg, run, j);
    RunIsTruthful(cfg, run[..j]);
    RunIsConsistent(cfg, run[..j]);
    ReadAndParsed(cfg, run, i, j);
    ConnectionFacts(cfg, run, i, j);
    LegalAt(cfg, run, i);
    FactsRemember(cfg, run[..i]);
    var f := FactsOf(cfg, run[..j]);
    if run[j].PollEnd? {
      StillReceiving(cfg, run, i, j);
    }
    RestsComplete(cfg, f, run[j]);
    InfosTold(cfg, run, i, j);
    forall other { ResumedConformsExactly(cfg.caps, f.idAtOpen, other, f.stream); }
  }

  lemma RestsComplete(cfg: Config, f: Facts, e: Event)
    requires Consistent(cfg, f) && Truthful(cfg, f) && Reading(cfg, f) && Allowed(cfg, f, e)
    requires if e.PollEnd? then f.phase == Receiving else e.OnFail? && f.established
    ensures Pending(f) == [] && !f.doomed
    ensures f.delivered == Delivered(f.idAtOpen, StreamTrace(cfg.caps, f.stream))
    ensures f.callbacks == StreamTrace(cfg.caps, f.stream) && OwingInfo(f) == []
  {
    hide HintLaw, LawfulDelay, Decided, StreamTrace, Delivered, LastId, RetryAfter;
    assert f.owed.None?;
    assert f.delivered + [] == f.delivered;
  }

  lemma {:induction false} StillReceiving(cfg: Config, run: seq<Event>, i: nat, j: nat)
    requires LastOpen(run, i, j) && Unended(run, i, j)
    ensures FactsOf(cfg, run[..j]).phase == Receiving
    decreases j
  {
    hide Next, EndsConnection, LastOpen, FactsOf;
    Earlier(run, i, j);
    FactsSnoc(cfg, run, j);
    if j == i + 1 {
      ReceivingStep(FactsOf(cfg, run[..i]), run[i]);
    } else {
      StillReceiving(cfg, run, i, j - 1);
      ReceivingStep(FactsOf(cfg, run[..j - 1]), run[j - 1]);
    }
  }

  lemma ReceivingStep(f: Facts, e: Event)
    requires e.OnOpen? || (f.phase == Receiving && !EndsConnection(e))
    ensures Next(f, e).phase == Receiving
  {
    hide Due;
  }
}
