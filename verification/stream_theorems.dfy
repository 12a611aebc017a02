/** What the line-oriented reading guarantees: callbacks are never taken back,
    blocks are independent, and no block is lost in silence. */
module StreamTheorems {
  import opened Bytes
  import opened Lines
  import opened StreamSpec
  import opened StreamLemmas

  // ---- kinds of callbacks ----

  datatype Kind = Events | Ids | Retries | Discards | NonErrors

  predicate Is(k: Kind, cb: Callback) {
    match k
    case Events => cb.OnEvent?
    case Ids => cb.OnId?
    case Retries => cb.OnRetry?
    case Discards => cb.OnError? && IsDiscard(cb.err)
    case NonErrors => !cb.OnError?
  }

  /** The errors that give up a block. */
  predicate IsDiscard(err: Error) {
    err == DataTooLarge || err == EventTypeTooLarge || err == EventTypeInvalid
  }

  /** The callbacks of one kind, in order. */
  function Select(k: Kind, cbs: seq<Callback>): seq<Callback> {
    if cbs == [] then []
    else if Is(k, cbs[0]) then [cbs[0]] + Select(k, cbs[1..])
    else Select(k, cbs[1..])
  }

  lemma {:induction false} SelectConcat(k: Kind, a: seq<Callback>, b: seq<Callback>)
    ensures Select(k, a + b) == Select(k, a) + Select(k, b)
  {
    if a == [] {
      assert a + b == b;
    } else {
      hide Is;
      assert (a + b)[1..] == a[1..] + b;
      SelectConcat(k, a[1..], b);
      ConcatAssociates([a[0]], Select(k, a[1..]), Select(k, b));
    }
  }

  lemma EmptySelect(k: Kind)
    ensures Select(k, []) == []
  {
  }

  lemma SelectOne(k: Kind, cb: Callback)
    ensures Select(k, [cb]) == if Is(k, cb) then [cb] else []
  {
    assert [cb][1..] == [];
  }

  // ---- complete and incomplete streams ----

  /** A stream that ends in a terminator has no unfinished line. */
  lemma EndsInTerminator(s: bytes, b: byte)
    requires IsTerminator(b)
    ensures SplitLines(s + [b]).rest == []
  {
    hide SplitLines;
    SplitSnoc(s, b);
    if EndsWithCr(s) {
      var init := s[..|s| - 1];
      assert s == init + [CR];
      SplitSnoc(init, CR);
    }
  }

  /** The callbacks of a stream that ends in a terminator are those of its lines. */
  lemma CompleteTrace(caps: Caps, s: bytes, b: byte)
    requires IsTerminator(b)
    ensures StreamTrace(caps, s + [b]) == RunOut(caps, EMPTY, SplitLines(StripBom(s + [b])).lines)
  {
    var body := StripBom(s + [b]);
    assert body != [] && body[|body| - 1] == b by {
      assert !(s + [b] <= BOM) by {
        assert forall x :: x in BOM ==> !IsTerminator(x);
        assert b in s + [b];
      }
    }
    assert body == body[..|body| - 1] + [b];
    EndsInTerminator(body[..|body| - 1], b);
  }

  /** An unfinished line causes nothing but errors. */
  lemma CompletedNonErrors(caps: Caps, stream: bytes)
    ensures Select(NonErrors, StreamTrace(caps, stream)) ==
            Select(NonErrors, RunOut(caps, EMPTY, SplitLines(StripBom(stream)).lines))
  {
    var s := SplitLines(StripBom(stream));
    var blk := RunBlock(caps, EMPTY, s.lines);
    hide RunOut, RunBlock, SplitLines, StripBom, PartialOut, Select;
    SelectConcat(NonErrors, RunOut(caps, EMPTY, s.lines), PartialOut(caps, blk, s.rest));
    PartialIsError(caps, blk, s.rest);
  }

  lemma PartialIsError(caps: Caps, blk: Block, part: bytes)
    ensures Select(NonErrors, PartialOut(caps, blk, part)) == []
  {
    hide FieldOf, EventFits, IdFits, RetryFits, EventCause, Value, Name, HasColon, IsComment, Saturated, Select;
    hide Terminated;
    EmptySelect(NonErrors);
    var p := PartialOut(caps, blk, part);
    if p != [] {
      SelectOne(NonErrors, p[0]);
      assert p == [p[0]];
    }
  }

  lemma ValueGrows(caps: Caps, blk: Block, f: Field, v: bytes, b: byte)
    ensures ValueOut(caps, blk, f, v) <= ValueOut(caps, blk, f, v + [b])
    ensures ValueOut(caps, blk, f, v) <= FieldOut(caps, blk, f, v)
  {
    EventCauseSnoc(caps, v, b);
    IdFitsSnoc(caps, v, b);
  }

  /** An error that an unfinished line has caused, the finished line causes. */
  lemma PartialGrows(caps: Caps, blk: Block, part: bytes, b: byte)
    ensures PartialOut(caps, blk, part) <= PartialOut(caps, blk, part + [b])
    ensures PartialOut(caps, blk, part) <= LineOut(caps, blk, part)
  {
    hide FieldOf, FieldOut, ValueOut;
    if part == [] {
    } else if IsComment(part) {
      assert IsComment(part + [b]);
    } else if HasColon(part) {
      ColonSnoc(part, b);
      assert IsComment(part + [b]) == IsComment(part);
      ValueGrows(caps, blk, FieldOf(Name(part)), Value(part), b);
    } else {
      assert !IsComment(part + [b]);
      if |part| > MAX_NAME {
        LongName(caps, blk, part, b);
      }
    }
  }

  /** A line that starts with a name too long to be known is of no known field. */
  lemma LongName(caps: Caps, blk: Block, part: bytes, b: byte)
    requires !HasColon(part) && |part| > MAX_NAME
    ensures PartialOut(caps, blk, part + [b]) == LineOut(caps, blk, part) == [OnError(UnknownField)]
  {
    NoColonSnoc(part, b);
    assert (part + [b])[0] == part[0];
    assert Name(part) == part;
  }

  /** Callbacks are never taken back: more bytes only add to them. */
  lemma {:induction false} TraceGrows(caps: Caps, s: bytes, t: bytes)
    ensures StreamTrace(caps, s) <= StreamTrace(caps, s + t)
    decreases |t|
  {
    if t == [] {
      assert s + t == s;
    } else {
      var s' := s + t[..|t| - 1];
      var b := t[|t| - 1];
      assert s + t == s' + [b];
      TraceGrows(caps, s, t[..|t| - 1]);
      if AwaitsBom(s') {
        BomTrace(caps, s');
      } else {
        StripBomSnoc(s', b);
        BodyGrows(caps, StripBom(s'), b);
      }
    }
  }

  lemma BomTrace(caps: Caps, s: bytes)
    requires AwaitsBom(s)
    ensures StreamTrace(caps, s) == []
  {
    SplitNone(s);
    IndexOfIs(s, COLON, |s|);
  }

  lemma BodyGrows(caps: Caps, s: bytes, b: byte)
    ensures BodyTrace(caps, s) <= BodyTrace(caps, s + [b])
  {
    hide SplitLines, RunOut, RunBlock, PartialOut, LineOut, LineBlock;
    var ls, part := SplitLines(s).lines, SplitLines(s).rest;
    SplitSnoc(s, b);
    RunSnoc(caps, EMPTY, ls, part);
    PartialGrows(caps, RunBlock(caps, EMPTY, ls), part, b);
  }

  // ---- blocks are independent ----

  /** The stream so far ends where a block ends. */
  predicate AtBlockEnd(s: bytes) {
    var p := SplitLines(s);
    p.rest == [] && p.lines != [] && p.lines[|p.lines| - 1] == []
  }

  /** After a block ends, callbacks do not depend on anything before: not on a
      discarded block, an id, an event type or bytes left in a buffer. */
  lemma Resync(caps: Caps, a: bytes, b: bytes)
    requires AtBlockEnd(a)
    ensures EndsWithCr(a) && b != [] && b[0] == LF ==>
              BodyTrace(caps, a + b) == BodyTrace(caps, a) + BodyTrace(caps, b[1..])
    ensures !(EndsWithCr(a) && b != [] && b[0] == LF) ==>
              BodyTrace(caps, a + b) == BodyTrace(caps, a) + BodyTrace(caps, b)
  {
    hide SplitLines, RunOut, RunBlock, PartialOut;
    if EndsWithCr(a) && b != [] && b[0] == LF {
      SplitSnoc(a, LF);
      assert !EndsWithCr(a + [LF]);
      assert a + b == (a + [LF]) + b[1..];
      ResyncPlain(caps, a + [LF], b[1..]);
    } else {
      ResyncPlain(caps, a, b);
    }
  }

  lemma ResyncPlain(caps: Caps, a: bytes, b: bytes)
    requires AtBlockEnd(a)
    requires EndsWithCr(a) ==> b == [] || b[0] != LF
    ensures BodyTrace(caps, a + b) == BodyTrace(caps, a) + BodyTrace(caps, b)
  {
    hide SplitLines, RunOut, RunBlock, PartialOut, LineOut, LineBlock;
    var la, lb := SplitLines(a).lines, SplitLines(b).lines;
    SplitConcat(a, b);
    RunConcat(caps, EMPTY, la, lb);
    assert la == la[..|la| - 1] + [[]];
    RunSnoc(caps, EMPTY, la[..|la| - 1], []);
    BlankLine(caps, RunBlock(caps, EMPTY, la[..|la| - 1]));
    BlankLine(caps, EMPTY);
    ConcatAssociates(RunOut(caps, EMPTY, la), RunOut(caps, EMPTY, lb),
                     PartialOut(caps, RunBlock(caps, EMPTY, lb), SplitLines(b).rest));
  }

  // ---- no silent loss ----

  /** The values of the lines of one field, in order. */
  function Values(f: Field, lines: seq<bytes>): seq<bytes> {
    if lines == [] then []
    else
      var line := lines[|lines| - 1];
      Values(f, lines[..|lines| - 1]) +
      if !IsComment(line) && FieldOf(Name(line)) == f then [Value(line)] else []
  }

  predicate AllFit(caps: Caps, lines: seq<bytes>) {
    && |Terminated(Values(DataField, lines))| <= caps.data
    && forall v :: v in Values(EventField, lines) ==> EventFits(caps, v)
  }

  /** Why a block is given up: because of the first field that does not fit, and
      then because of the first byte of an event type that does not. */
  function FirstCause(caps: Caps, lines: seq<bytes>): (cause: Option<Error>)
    ensures cause.None? <==> AllFit(caps, lines)
    ensures cause.Some? ==> IsDiscard(cause.value)
  {
    if AllFit(caps, lines) then None
    else
      var n := |lines| - 1;
      assert lines != [];
      if AllFit(caps, lines[..n]) then Some(CauseOf(caps, lines[n])) else FirstCause(caps, lines[..n])
  }

  function CauseOf(caps: Caps, line: bytes): (cause: Error)
    ensures IsDiscard(cause)
  {
    if FieldOf(Name(line)) == DataField then DataTooLarge else EventCause(caps, Value(line))
  }

  /** The cause is that of the one line with which the block stops fitting. */
  lemma {:induction false} FirstCauseIs(caps: Caps, lines: seq<bytes>, k: nat)
    requires k < |lines| && AllFit(caps, lines[..k]) && !AllFit(caps, lines[..k + 1])
    ensures FirstCause(caps, lines) == Some(CauseOf(caps, lines[k]))
    decreases |lines|
  {
    hide AllFit, CauseOf;
    var n := |lines| - 1;
    if k < n {
      var init := lines[..n];
      assert init[..k] == lines[..k] && init[..k + 1] == lines[..k + 1];
      FirstCauseIs(caps, init, k);
      assert lines == init + [lines[n]];
      FitSnoc(caps, init, lines[n]);
    } else {
      assert lines[..k + 1] == lines;
    }
  }

  function Reported(cause: Option<Error>): seq<Callback> {
    if cause.None? then [] else [OnError(cause.value)]
  }

  function Last(vs: seq<bytes>): Option<bytes> {
    if vs == [] then None else Some(vs[|vs| - 1])
  }

  /** The event type of a block: that of its last event line. */
  function TypeOf(types: seq<bytes>): bytes {
    if types == [] then [] else types[|types| - 1]
  }

  /** The id a block commits: that of its last id line, if that is valid. */
  function CommittedId(caps: Caps, lines: seq<bytes>): Option<bytes> {
    match Last(Values(IdField, lines))
    case None => None
    case Some(v) => if IdFits(caps, v) then Some(v) else None
  }

  /** The retry callbacks of a block: one for every valid retry line. */
  function RetryCalls(vs: seq<bytes>): seq<Callback> {
    if vs == [] then []
    else RetryCalls(vs[..|vs| - 1]) +
         if RetryFits(vs[|vs| - 1]) then [OnRetry(Saturated(vs[|vs| - 1]))] else []
  }

  lemma ValuesSnoc(f: Field, lines: seq<bytes>, line: bytes)
    ensures Values(f, lines + [line]) ==
            if !IsComment(line) && FieldOf(Name(line)) == f then Values(f, lines) + [Value(line)] else Values(f, lines)
  {
    assert (lines + [line])[..|lines|] == lines;
  }

  lemma RetryCallsSnoc(vs: seq<bytes>, v: bytes)
    ensures RetryCalls(vs + [v]) ==
            if RetryFits(v) then RetryCalls(vs) + [OnRetry(Saturated(v))] else RetryCalls(vs)
  {
    assert (vs + [v])[..|vs|] == vs;
  }

  /** What the lines of a block leave in it before the blank line. */
  ghost predicate Collected(caps: Caps, lines: seq<bytes>, blk: Block) {
    && blk.content.Live? == AllFit(caps, lines)
    && (blk.content.Live? ==>
          && blk.content.values == Values(DataField, lines)
          && blk.content.event == TypeOf(Values(EventField, lines)))
    && blk.id == CommittedId(caps, lines)
  }

  /** What they cause before the blank line. */
  ghost predicate Caused(caps: Caps, lines: seq<bytes>, out: seq<Callback>) {
    && Select(Events, out) == [] && Select(Ids, out) == []
    && Select(Discards, out) == Reported(FirstCause(caps, lines))
    && Select(Retries, out) == RetryCalls(Values(RetryField, lines))
  }

  lemma {:induction false} CollectBlock(caps: Caps, lines: seq<bytes>)
    requires [] !in lines
    ensures Collected(caps, lines, RunBlock(caps, EMPTY, lines))
    ensures Caused(caps, lines, RunOut(caps, EMPTY, lines))
  {
    if lines != [] {
      var init, line := lines[..|lines| - 1], lines[|lines| - 1];
      assert lines == init + [line];
      CollectBlock(caps, init);
      RunSnoc(caps, EMPTY, init, line);
      CollectLine(caps, init, line, RunBlock(caps, EMPTY, init));
      CauseLine(caps, init, line, RunBlock(caps, EMPTY, init), RunOut(caps, EMPTY, init));
    }
  }

  lemma FitSnoc(caps: Caps, init: seq<bytes>, line: bytes)
    ensures var f := if IsComment(line) then NoField else FieldOf(Name(line));
            AllFit(caps, init + [line]) ==
            (&& AllFit(caps, init)
             && (f == DataField ==> DataFits(caps, Values(DataField, init), Value(line)))
             && (f == EventField ==> EventFits(caps, Value(line))))
  {
    hide FieldOf, EventFits, Values, Terminated, Value, Name, IsComment;
    ValuesSnoc(DataField, init, line);
    ValuesSnoc(EventField, init, line);
    TerminatedSnoc(Values(DataField, init), Value(line));
    var a, b := Values(EventField, init), Values(EventField, init + [line]);
    assert forall x :: x in b <==> x in a || (|b| > |a| && x == Value(line));
  }

  lemma CollectLine(caps: Caps, init: seq<bytes>, line: bytes, blk: Block)
    requires line != [] && Collected(caps, init, blk)
    ensures Collected(caps, init + [line], LineBlock(caps, blk, line))
  {
    FitSnoc(caps, init, line);
    hide FieldOf, AllFit, EventFits, DataFits, IdFits, Values;
    ValuesSnoc(DataField, init, line);
    ValuesSnoc(EventField, init, line);
    ValuesSnoc(IdField, init, line);
  }

  lemma CauseLine(caps: Caps, init: seq<bytes>, line: bytes, blk: Block, out: seq<Callback>)
    requires line != [] && Collected(caps, init, blk) && Caused(caps, init, out)
    ensures Caused(caps, init + [line], out + LineOut(caps, blk, line))
  {
    hide FieldOf, AllFit, EventFits, DataFits, IdFits, Values, Select, RetryFits, Saturated, RetryCalls;
    hide Value, Name, IsComment;
    var now := LineOut(caps, blk, line);
    FitSnoc(caps, init, line);
    SelectMore(Events, out, now);
    SelectMore(Ids, out, now);
    SelectMore(Discards, out, now);
    SelectMore(Retries, out, now);
    ValuesSnoc(RetryField, init, line);
    RetryCallsSnoc(Values(RetryField, init), Value(line));
  }

  lemma SelectMore(k: Kind, out: seq<Callback>, now: seq<Callback>)
    requires |now| <= 1
    ensures Select(k, out + now) ==
            if now != [] && Is(k, now[0]) then Select(k, out) + now else Select(k, out)
  {
    SelectConcat(k, out, now);
    if now != [] {
      SelectOne(k, now[0]);
      assert now == [now[0]];
    }
  }

  /** Every block with a data line is either delivered or reported as discarded,
      once and with the first cause; which of the two is decided by the sizes of
      its fields alone. Its id and its retry fields take effect either way. */
  lemma NoSilentLoss(caps: Caps, lines: seq<bytes>)
    requires [] !in lines
    ensures var out := RunOut(caps, EMPTY, lines + [[]]);
            var data := Values(DataField, lines);
            var types := Values(EventField, lines);
            var id := CommittedId(caps, lines);
            && (data != [] ==> |Select(Events, out)| + |Select(Discards, out)| == 1)
            && Select(Discards, out) == Reported(FirstCause(caps, lines))
            && Select(Events, out) ==
               (if data == [] || FirstCause(caps, lines).Some? then []
                else [OnEvent(if TypeOf(types) == [] then None else Some(TypeOf(types)), id, Payload(data))])
            && (data != [] ==>
                  (FirstCause(caps, lines).None? <==>
                     |Payload(data)| < caps.data && forall v :: v in types ==> EventFits(caps, v)))
            && Select(Ids, out) == (if id.Some? then [OnId(id.value)] else [])
            && Select(Retries, out) == RetryCalls(Values(RetryField, lines))
  {
    var blk, out := RunBlock(caps, EMPTY, lines), RunOut(caps, EMPTY, lines);
    CollectBlock(caps, lines);
    RunSnoc(caps, EMPTY, lines, []);
    BlankLine(caps, blk);
    DispatchKinds(blk, out);
    if Values(DataField, lines) != [] {
      TerminatedIsPayload(Values(DataField, lines));
    }
    hide RunBlock, RunOut, LineBlock, LineOut, DispatchOut, Values, CommittedId, EventFits, FirstCause, Select;
    hide Payload, Terminated, RetryCalls;
  }

  lemma DispatchKinds(blk: Block, out: seq<Callback>)
    ensures Select(Events, out + DispatchOut(blk)) == Select(Events, out) + EventOut(blk)
    ensures Select(Ids, out + DispatchOut(blk)) == Select(Ids, out) + if blk.id.Some? then [OnId(blk.id.value)] else []
    ensures Select(Discards, out + DispatchOut(blk)) == Select(Discards, out)
    ensures Select(Retries, out + DispatchOut(blk)) == Select(Retries, out)
  {
    var ids := if blk.id.Some? then [OnId(blk.id.value)] else [];
    DispatchKind(Events, ids, EventOut(blk), out);
    DispatchKind(Ids, ids, EventOut(blk), out);
    DispatchKind(Discards, ids, EventOut(blk), out);
    DispatchKind(Retries, ids, EventOut(blk), out);
  }

  lemma DispatchKind(k: Kind, ids: seq<Callback>, events: seq<Callback>, out: seq<Callback>)
    requires |ids| <= 1 && |events| <= 1
    ensures Select(k, out + (ids + events)) ==
            Select(k, out) + (if ids != [] && Is(k, ids[0]) then ids else []) +
            (if events != [] && Is(k, events[0]) then events else [])
  {
    ConcatAssociates(out, ids, events);
    SelectMore(k, out + ids, events);
    SelectMore(k, out, ids);
  }
}
