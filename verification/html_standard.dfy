/** Section 9.2.6 of the WHATWG HTML Standard, read over bytes, and when the
    parser with its bridge delivers exactly what it says. */
module HtmlStandard {
  import opened Bytes
  import opened Lines
  import opened StreamSpec
  import opened StreamLemmas
  import opened StreamTheorems
  import opened Messages

  /** The standard's data buffer, event type buffer and last event id buffer. */
  datatype Reader = Reader(data: bytes, event: bytes, id: bytes)

  function ReadField(r: Reader, f: Field, v: bytes): Reader {
    match f
    case EventField => r.(event := v)
    case DataField => r.(data := r.data + v + [LF])
    case IdField => if NUL in v then r else r.(id := v)
    case _ => r
  }

  function ReadLine(r: Reader, line: bytes): Reader {
    if line == [] then r.(data := [], event := [])
    else if IsComment(line) then r
    else ReadField(r, FieldOf(Name(line)), Value(line))
  }

  /** Dispatching: nothing when the data buffer is empty; otherwise its trailing
      LF is removed and the event carries the last event id. */
  function Dispatch(r: Reader, line: bytes): seq<Message> {
    if line != [] || r.data == [] then []
    else [Message(if r.event == [] then MESSAGE else r.event,
                  if r.data[|r.data| - 1] == LF then r.data[..|r.data| - 1] else r.data,
                  r.id)]
  }

  function ReadLines(r: Reader, lines: seq<bytes>): seq<Message>
    decreases lines
  {
    if lines == [] then []
    else Dispatch(r, lines[0]) + ReadLines(ReadLine(r, lines[0]), lines[1..])
  }

  /** What a browser dispatches for a stream read with last event id `id`. */
  function ReadStream(id: bytes, stream: bytes): seq<Message> {
    ReadLines(Reader([], [], id), SplitLines(StripBom(stream)).lines)
  }

  // ---- streams on which both agree ----

  /** What decides about the next blank line: the bytes that the block's data lines
      need, whether all its fields fit so far, the id that it is going to commit,
      and the last ids that the parser and the standard have stored. */
  datatype Track = Track(size: nat, fits: bool, pending: Option<bytes>, stored: Option<bytes>, standard: Option<bytes>)

  /** The start of a stream, with the last event id known or not. */
  function Begin(id: Option<bytes>): Track {
    Track(0, true, None, id, id)
  }

  function Stored(t: Track): Option<bytes> {
    if t.pending.Some? then t.pending else t.stored
  }

  function StepField(caps: Caps, t: Track, f: Field, v: bytes): Track {
    match f
    case DataField => t.(size := t.size + |v| + 1, fits := t.fits && t.size + |v| < caps.data)
    case EventField => t.(fits := t.fits && EventFits(caps, v))
    case IdField =>
      t.(pending := if IdFits(caps, v) then Some(v) else None, standard := if NUL in v then t.standard else Some(v))
    case _ => t
  }

  function Step(caps: Caps, t: Track, line: bytes): Track {
    if line == [] then Track(0, true, None, Stored(t), t.standard)
    else if IsComment(line) then t
    else StepField(caps, t, FieldOf(Name(line)), Value(line))
  }

  /** A blank line finds no data, or a block that fits and the ids equal. */
  predicate Sound(t: Track) {
    t.size > 0 ==> t.fits && Stored(t) == t.standard
  }

  predicate Conforms(caps: Caps, t: Track, lines: seq<bytes>)
    decreases lines
  {
    lines == [] || ((lines[0] == [] ==> Sound(t)) && Conforms(caps, Step(caps, t, lines[0]), lines[1..]))
  }

  /** What the parser's block and stored id have to do with the standard's buffers. */
  ghost predicate Related(t: Track, blk: Block, id: bytes, r: Reader) {
    && t.stored == Some(id) && t.standard == Some(r.id) && t.pending == blk.id
    && |r.data| == t.size && blk.content.Live? == t.fits
    && (t.fits ==> r.data == Terminated(blk.content.values) && r.event == blk.content.event)
  }

  lemma RelatedData(caps: Caps, t: Track, blk: Block, id: bytes, r: Reader, v: bytes)
    requires Related(t, blk, id, r)
    ensures var step, next := StepField(caps, t, DataField, v), FieldBlock(caps, blk, DataField, v);
            Related(step, next, id, ReadField(r, DataField, v))
  {
    if t.fits {
      TerminatedSnoc(blk.content.values, v);
    }
  }

  lemma RelatedField(caps: Caps, t: Track, blk: Block, id: bytes, r: Reader, f: Field, v: bytes)
    requires Related(t, blk, id, r)
    ensures Related(StepField(caps, t, f, v), FieldBlock(caps, blk, f, v), id, ReadField(r, f, v))
  {
    if f == DataField {
      RelatedData(caps, t, blk, id, r, v);
    } else {
      hide Terminated, EventFits, DataFits;
    }
  }

  /** A line that is not blank delivers nothing and stores no id. */
  lemma QuietField(caps: Caps, blk: Block, id: bytes, f: Field, v: bytes)
    ensures Delivered(id, FieldOut(caps, blk, f, v)) == [] && LastId(id, FieldOut(caps, blk, f, v)) == id
  {
    hide Terminated, EventFits, DataFits, IdFits, EventCause, RetryFits, Saturated;
    var out := FieldOut(caps, blk, f, v);
    assert |out| <= 1;
    assert out != [] ==> out[1..] == [];
  }

  /** A blank line dispatches the same exactly when it is sound, and never more. */
  lemma RelatedBlank(caps: Caps, t: Track, blk: Block, id: bytes, r: Reader)
    requires Related(t, blk, id, r)
    ensures var out := DispatchOut(blk);
            && Related(Step(caps, t, []), EMPTY, LastId(id, out), ReadLine(r, []))
            && |Delivered(id, out)| <= |Dispatch(r, [])|
            && (Delivered(id, out) == Dispatch(r, []) <==> Sound(t))
  {
    DeliveredDispatch(id, blk);
    hide DispatchOut, Delivered, LastId;
    assert Terminated([]) == [];
    if t.fits && blk.content.values != [] {
      TerminatedIsPayload(blk.content.values);
    }
  }

  lemma RelatedLine(caps: Caps, t: Track, blk: Block, id: bytes, r: Reader, line: bytes)
    requires Related(t, blk, id, r)
    ensures var out, step := LineOut(caps, blk, line), Step(caps, t, line);
            && Related(step, LineBlock(caps, blk, line), LastId(id, out), ReadLine(r, line))
            && |Delivered(id, out)| <= |Dispatch(r, line)|
            && (Delivered(id, out) == Dispatch(r, line) <==> (line == [] ==> Sound(t)))
  {
    hide Related, FieldBlock, FieldOut, ReadField, StepField, FieldOf, Value, Name, Sound, Delivered, LastId;
    if line == [] {
      hide Dispatch, DispatchOut, Step, ReadLine;
      RelatedBlank(caps, t, blk, id, r);
    } else if IsComment(line) {
      NothingDelivered(id, []);
    } else {
      RelatedField(caps, t, blk, id, r, FieldOf(Name(line)), Value(line));
      QuietField(caps, blk, id, FieldOf(Name(line)), Value(line));
    }
  }

  lemma {:induction false} RelatedLines(caps: Caps, t: Track, blk: Block, id: bytes, r: Reader, lines: seq<bytes>)
    requires Related(t, blk, id, r)
    ensures var out := RunOut(caps, blk, lines);
            && |Delivered(id, out)| <= |ReadLines(r, lines)|
            && (Delivered(id, out) == ReadLines(r, lines) <==> Conforms(caps, t, lines))
    decreases lines
  {
    hide Related, LineOut, LineBlock, Dispatch, ReadLine, Step, Sound, Delivered, LastId;
    if lines == [] {
      NothingDelivered(id, []);
    } else {
      var out, next, rest := LineOut(caps, blk, lines[0]), LineBlock(caps, blk, lines[0]), lines[1..];
      RelatedLine(caps, t, blk, id, r, lines[0]);
      DeliveredConcat(id, out, RunOut(caps, next, rest));
      RelatedLines(caps, Step(caps, t, lines[0]), next, LastId(id, out), ReadLine(r, lines[0]), rest);
      EqualInParts(Delivered(id, out), Delivered(LastId(id, out), RunOut(caps, next, rest)),
                   Dispatch(r, lines[0]), ReadLines(ReadLine(r, lines[0]), rest));
    }
  }

  lemma EqualInParts(a: seq<Message>, b: seq<Message>, c: seq<Message>, d: seq<Message>)
    requires |a| <= |c| && |b| <= |d|
    ensures a + b == c + d <==> a == c && b == d
  {
    if a + b == c + d {
      assert |a + b| == |c + d|;
      assert a == (a + b)[..|a|] && c == (c + d)[..|c|] && b == (a + b)[|a|..] && d == (c + d)[|c|..];
    }
  }

  /** The start of a stream that the code reads with last event id `id` and the
      standard with last event id `other`. */
  function Resumed(id: bytes, other: bytes): Track {
    Track(0, true, None, Some(id), Some(other))
  }

  /** Conformance, exactly: the messages delivered for a stream, read with one last
      event id, are those the standard dispatches, reading it with another, if and
      only if its lines conform from there. */
  lemma ResumedConformsExactly(caps: Caps, id: bytes, other: bytes, stream: bytes)
    ensures Delivered(id, StreamTrace(caps, stream)) == ReadStream(other, stream) <==>
            Conforms(caps, Resumed(id, other), SplitLines(StripBom(stream)).lines)
  {
    var s := SplitLines(StripBom(stream));
    var blk := RunBlock(caps, EMPTY, s.lines);
    var out, p := RunOut(caps, EMPTY, s.lines), PartialOut(caps, blk, s.rest);
    assert Related(Resumed(id, other), EMPTY, id, Reader([], [], other));
    PartialDeliversNothing(LastId(id, out), caps, blk, s.rest);
    hide SplitLines, StripBom, RunBlock, RunOut, PartialOut, Conforms, Related, Delivered, LastId, ReadLines, Resumed;
    RelatedLines(caps, Resumed(id, other), EMPTY, id, Reader([], [], other), s.lines);
    DeliveredConcat(id, out, p);
  }

  /** With the same id on both sides. */
  lemma ConformsExactly(caps: Caps, id: bytes, stream: bytes)
    ensures Delivered(id, StreamTrace(caps, stream)) == ReadStream(id, stream) <==>
            Conforms(caps, Begin(Some(id)), SplitLines(StripBom(stream)).lines)
  {
    hide SplitLines, StripBom, Conforms, StreamTrace, Delivered, ReadStream;
    ResumedConformsExactly(caps, id, id, stream);
  }

  lemma PartialDeliversNothing(id: bytes, caps: Caps, blk: Block, part: bytes)
    ensures Delivered(id, PartialOut(caps, blk, part)) == []
  {
    var p := PartialOut(caps, blk, part);
    assert |p| <= 1;
    assert p != [] ==> p[1..] == [];
  }

  /** The same for every last event id at once: an id that is not known is equal
      to no id of the stream. */
  lemma ConformsWhateverId(caps: Caps, stream: bytes)
    ensures (forall id :: Delivered(id, StreamTrace(caps, stream)) == ReadStream(id, stream)) <==>
            Conforms(caps, Begin(None), SplitLines(StripBom(stream)).lines)
  {
    var lines := SplitLines(StripBom(stream)).lines;
    forall id { ConformsExactly(caps, id, stream); }
    forall id { Known(caps, Begin(None), id, lines); }
    var other := LongerThan(lines);
    hide StreamTrace, Delivered, ReadStream, Conforms, SplitLines, StripBom;
    assert Begin(Some(other)) == Fill(Begin(None), other);
    assert forall id :: Begin(Some(id)) == Fill(Begin(None), id);
    assert Conforms(caps, Begin(Some(other)), lines) <==>
           Delivered(other, StreamTrace(caps, stream)) == ReadStream(other, stream);
  }

  /** The track when the last event id turns out to be `id`. */
  function Fill(t: Track, id: bytes): Track {
    t.(stored := if t.stored.None? then Some(id) else t.stored,
       standard := if t.standard.None? then Some(id) else t.standard)
  }

  function LongerThan(lines: seq<bytes>): (s: bytes)
    ensures forall l :: l in lines ==> |l| < |s|
  {
    if lines == [] then [] else lines[|lines| - 1] + LongerThan(lines[..|lines| - 1]) + [LF]
  }

  ghost predicate Foreign(t: Track, id: bytes) {
    t.pending != Some(id) && t.stored != Some(id) && t.standard != Some(id)
  }

  lemma FillStep(caps: Caps, t: Track, id: bytes, line: bytes)
    ensures Step(caps, Fill(t, id), line) == Fill(Step(caps, t, line), id)
    ensures Sound(t) ==> Sound(Fill(t, id))
    ensures Foreign(t, id) && |line| < |id| ==>
              Foreign(Step(caps, t, line), id) && (Sound(Fill(t, id)) ==> Sound(t))
  {
    hide FieldOf, EventFits, IdFits, Name, Value, IsComment;
    ValueIsShorter(line);
  }

  lemma ValueIsShorter(line: bytes)
    ensures |Value(line)| <= |line|
  {
  }

  lemma {:induction false} Known(caps: Caps, t: Track, id: bytes, lines: seq<bytes>)
    ensures Conforms(caps, t, lines) ==> Conforms(caps, Fill(t, id), lines)
    ensures Foreign(t, id) && (forall l :: l in lines ==> |l| < |id|) && Conforms(caps, Fill(t, id), lines) ==>
              Conforms(caps, t, lines)
    decreases lines
  {
    hide Step, Fill, Sound, Foreign;
    if lines != [] {
      FillStep(caps, t, id, lines[0]);
      assert lines[0] in lines;
      Known(caps, Step(caps, t, lines[0]), id, lines[1..]);
    }
  }

  /** Every field fits the buffers, no event type holds a NUL, and an id line
      that the standard ignores does not follow a valid one in its block. `size`
      bytes of the data buffer are used, and `valid` says that the block has a
      valid id. */
  predicate Tame(caps: Caps, lines: seq<bytes>, size: nat, valid: bool)
    decreases lines
  {
    if lines == [] then true
    else
      var line, rest := lines[0], lines[1..];
      var v := Value(line);
      if line == [] then Tame(caps, rest, 0, false)
      else if IsComment(line) then Tame(caps, rest, size, valid)
      else match FieldOf(Name(line))
        case DataField => size + |v| < caps.data && Tame(caps, rest, size + |v| + 1, valid)
        case EventField => EventFits(caps, v) && Tame(caps, rest, size, valid)
        case IdField =>
          if NUL in v then !valid && Tame(caps, rest, size, false)
          else |v| < caps.id && Tame(caps, rest, size, true)
        case _ => Tame(caps, rest, size, valid)
  }

  lemma {:induction false} TameConforms(caps: Caps, t: Track, lines: seq<bytes>)
    requires Tame(caps, lines, t.size, t.pending.Some?) && t.fits && Stored(t) == t.standard
    ensures Conforms(caps, t, lines)
    decreases lines
  {
    hide FieldOf, EventFits, Value, Name;
    if lines != [] {
      TameConforms(caps, Step(caps, t, lines[0]), lines[1..]);
    }
  }

  /** Streams whose fields fit and that ignore no id after a valid one conform. */
  lemma Conformance(caps: Caps, id: bytes, stream: bytes)
    requires Tame(caps, SplitLines(StripBom(stream)).lines, 0, false)
    ensures Delivered(id, StreamTrace(caps, stream)) == ReadStream(id, stream)
  {
    hide Tame, Conforms, StreamTrace, Delivered, ReadStream;
    ConformsExactly(caps, id, stream);
    TameConforms(caps, Begin(Some(id)), SplitLines(StripBom(stream)).lines);
  }

  // ---- a stream read with another last event id ----

  /** Every event is preceded, in the stream, by an id that the standard takes.
      `data` says that the block has data, and `known` that there is an id. */
  predicate Identified(lines: seq<bytes>, data: bool, known: bool)
    decreases lines
  {
    if lines == [] then true
    else
      var line, rest := lines[0], lines[1..];
      if line == [] then (data ==> known) && Identified(rest, false, known)
      else if IsComment(line) then Identified(rest, data, known)
      else match FieldOf(Name(line))
        case DataField => Identified(rest, true, known)
        case IdField => Identified(rest, data, known || NUL !in Value(line))
        case _ => Identified(rest, data, known)
  }

  lemma {:induction false} ReadWithOther(r: Reader, s: Reader, lines: seq<bytes>, known: bool)
    requires r.data == s.data && r.event == s.event && (if known then r.id == s.id else r.id != s.id)
    ensures |ReadLines(r, lines)| == |ReadLines(s, lines)|
    ensures ReadLines(r, lines) == ReadLines(s, lines) <==> Identified(lines, r.data != [], known)
    decreases lines
  {
    hide FieldOf, Value, Name, IsComment;
    if lines != [] {
      var line, rest := lines[0], lines[1..];
      var r', s' := ReadLine(r, line), ReadLine(s, line);
      ReadWithOther(r', s', rest, r'.id == s'.id);
      EqualInParts(Dispatch(r, line), ReadLines(r', rest), Dispatch(s, line), ReadLines(s', rest));
    }
  }

  /** After a reconnect the client reads on with its last id, where the standard
      starts with none: that makes a difference exactly when there is such an id
      and an event comes before the first id of the new stream. */
  lemma FreshReadExactly(id: bytes, stream: bytes)
    ensures ReadStream(id, stream) == ReadStream([], stream) <==>
            id == [] || Identified(SplitLines(StripBom(stream)).lines, false, false)
  {
    hide SplitLines, StripBom, ReadLines, Identified;
    if id != [] {
      ReadWithOther(Reader([], [], id), Reader([], [], []), SplitLines(StripBom(stream)).lines, false);
    }
  }

  // ---- one block: exactly when they agree ----

  /** The id that the standard stores for a block with the id values `vs`. */
  function StandardId(id: bytes, vs: seq<bytes>): bytes {
    if vs == [] then id
    else if NUL in vs[|vs| - 1] then StandardId(id, vs[..|vs| - 1])
    else vs[|vs| - 1]
  }

  function ReadAll(r: Reader, lines: seq<bytes>): Reader {
    if lines == [] then r
    else ReadLine(ReadAll(r, lines[..|lines| - 1]), lines[|lines| - 1])
  }

  /** The standard's buffers before the blank line of a block. */
  function Buffers(id: bytes, lines: seq<bytes>): Reader {
    Reader(Terminated(Values(DataField, lines)), TypeOf(Values(EventField, lines)),
           StandardId(id, Values(IdField, lines)))
  }

  lemma {:induction false} ReadBlock(id: bytes, lines: seq<bytes>)
    requires [] !in lines
    ensures ReadAll(Reader([], [], id), lines) == Buffers(id, lines)
  {
    if lines != [] {
      var init, line := lines[..|lines| - 1], lines[|lines| - 1];
      assert lines == init + [line];
      ReadBlock(id, init);
      hide Buffers, ReadLine;
      BuffersSnoc(id, init, line);
    }
  }

  lemma BuffersSnoc(id: bytes, init: seq<bytes>, line: bytes)
    requires line != []
    ensures Buffers(id, init + [line]) == ReadLine(Buffers(id, init), line)
  {
    hide FieldOf, Values, Terminated, StandardId, Name, Value, IsComment;
    ValuesSnoc(DataField, init, line);
    ValuesSnoc(EventField, init, line);
    ValuesSnoc(IdField, init, line);
    TerminatedSnoc(Values(DataField, init), Value(line));
    StandardIdSnoc(id, Values(IdField, init), Value(line));
  }

  lemma StandardIdSnoc(id: bytes, vs: seq<bytes>, v: bytes)
    ensures StandardId(id, vs + [v]) == if NUL in v then StandardId(id, vs) else v
  {
    assert (vs + [v])[..|vs|] == vs;
  }

  lemma {:induction false} ReadLinesOfBlock(r: Reader, lines: seq<bytes>)
    requires [] !in lines
    ensures ReadLines(r, lines + [[]]) == Dispatch(ReadAll(r, lines), [])
    decreases |lines|
  {
    if lines == [] {
      var blank: seq<bytes> := [[]];
      assert lines + blank == blank && blank[1..] == [];
    } else {
      assert (lines + [[]])[1..] == lines[1..] + [[]];
      ReadAllCons(r, lines);
      ReadLinesOfBlock(ReadLine(r, lines[0]), lines[1..]);
    }
  }

  lemma {:induction false} ReadAllCons(r: Reader, lines: seq<bytes>)
    requires lines != []
    ensures ReadAll(r, lines) == ReadAll(ReadLine(r, lines[0]), lines[1..])
  {
    if |lines| > 1 {
      ReadAllCons(r, lines[..|lines| - 1]);
      assert lines[1..][..|lines| - 2] == lines[..|lines| - 1][1..];
    }
  }

  lemma {:induction false} NothingDelivered(id: bytes, cbs: seq<Callback>)
    requires Select(Events, cbs) == [] && Select(Ids, cbs) == []
    ensures Delivered(id, cbs) == [] && LastId(id, cbs) == id
    decreases cbs
  {
    if cbs != [] {
      NothingDelivered(id, cbs[1..]);
    }
  }

  /** The id lines of a block leave both with the same id, whatever it was. */
  predicate SameIds(caps: Caps, vs: seq<bytes>) {
    vs == [] || IdFits(caps, vs[|vs| - 1]) || forall v :: v in vs ==> NUL in v
  }

  function StoredId(caps: Caps, id: bytes, vs: seq<bytes>): bytes {
    if vs != [] && IdFits(caps, vs[|vs| - 1]) then vs[|vs| - 1] else id
  }

  lemma SameIdsExactly(caps: Caps, vs: seq<bytes>)
    ensures SameIds(caps, vs) <==> forall id :: StoredId(caps, id, vs) == StandardId(id, vs)
  {
    if SameIds(caps, vs) {
      forall id ensures StoredId(caps, id, vs) == StandardId(id, vs) {
        if forall v :: v in vs ==> NUL in v {
          AllInvalid(id, vs);
        }
      }
    } else {
      SomeValid([], [0], vs);
      assert StoredId(caps, [], vs) == [] && StoredId(caps, [0], vs) == [0];
    }
  }

  lemma {:induction false} AllInvalid(id: bytes, vs: seq<bytes>)
    requires forall v :: v in vs ==> NUL in v
    ensures StandardId(id, vs) == id
  {
    if vs != [] {
      AllInvalid(id, vs[..|vs| - 1]);
    }
  }

  lemma {:induction false} SomeValid(a: bytes, b: bytes, vs: seq<bytes>)
    requires exists v :: v in vs && NUL !in v
    ensures StandardId(a, vs) == StandardId(b, vs)
  {
    if NUL in vs[|vs| - 1] {
      var i :| 0 <= i < |vs| && NUL !in vs[i];
      assert vs[..|vs| - 1][i] == vs[i];
      SomeValid(a, b, vs[..|vs| - 1]);
    }
  }

  /** What the parser and its bridge deliver for one block, and the id they keep. */
  lemma DeliverBlock(caps: Caps, id: bytes, lines: seq<bytes>)
    requires [] !in lines
    ensures var data, types := Values(DataField, lines), Values(EventField, lines);
            Delivered(id, RunOut(caps, EMPTY, lines + [[]])) ==
            if data != [] && AllFit(caps, lines) then
              [Message(if TypeOf(types) == [] then MESSAGE else TypeOf(types),
                       Payload(data), StoredId(caps, id, Values(IdField, lines)))]
            else []
    ensures LastId(id, RunOut(caps, EMPTY, lines + [[]])) == StoredId(caps, id, Values(IdField, lines))
  {
    var blk, out := RunBlock(caps, EMPTY, lines), RunOut(caps, EMPTY, lines);
    CollectBlock(caps, lines);
    RunSnoc(caps, EMPTY, lines, []);
    hide RunBlock, RunOut, Values, AllFit, IdFits, Payload;
    NothingDelivered(id, out);
    DeliveredConcat(id, out, DispatchOut(blk));
    DeliveredDispatch(id, blk);
  }

  /** What the standard dispatches for it, and the id it keeps. */
  lemma DispatchBlock(id: bytes, lines: seq<bytes>)
    requires [] !in lines
    ensures var data, types := Values(DataField, lines), Values(EventField, lines);
            ReadLines(Reader([], [], id), lines + [[]]) ==
            if data != [] then
              [Message(if TypeOf(types) == [] then MESSAGE else TypeOf(types),
                       Payload(data), StandardId(id, Values(IdField, lines)))]
            else []
    ensures ReadAll(Reader([], [], id), lines).id == StandardId(id, Values(IdField, lines))
  {
    ReadBlock(id, lines);
    ReadLinesOfBlock(Reader([], [], id), lines);
    if Values(DataField, lines) != [] {
      TerminatedIsPayload(Values(DataField, lines));
    }
  }

  /** A block, read with last event id `id`, has the same effect on both: the same
      message, if any, and the same last event id afterwards. */
  predicate SameEffect(caps: Caps, id: bytes, lines: seq<bytes>) {
    var out := RunOut(caps, EMPTY, lines + [[]]);
    && Delivered(id, out) == ReadLines(Reader([], [], id), lines + [[]])
    && LastId(id, out) == ReadAll(Reader([], [], id), lines).id
  }

  /** A block has the effect that the standard says, whatever the id was before,
      exactly when its last id line is valid, or none of them is, and, if it has
      data, all its fields fit. */
  lemma BlockConformsExactly(caps: Caps, lines: seq<bytes>)
    requires [] !in lines
    ensures (forall id :: SameEffect(caps, id, lines)) <==>
            SameIds(caps, Values(IdField, lines)) && (Values(DataField, lines) == [] || AllFit(caps, lines))
  {
    var data, ids := Values(DataField, lines), Values(IdField, lines);
    forall id
      ensures SameEffect(caps, id, lines) <==>
              StoredId(caps, id, ids) == StandardId(id, ids) && (data == [] || AllFit(caps, lines))
    {
      DeliverBlock(caps, id, lines);
      DispatchBlock(id, lines);
    }
    hide SameEffect, AllFit, SameIds, Values, StoredId, StandardId;
    SameIdsExactly(caps, ids);
    assert SameEffect(caps, [], lines) ==> data == [] || AllFit(caps, lines);
  }

  function ValuesOfLine(f: Field, l: bytes): seq<bytes> {
    if !IsComment(l) && FieldOf(Name(l)) == f then [Value(l)] else []
  }

  lemma ValuesOfThree(f: Field, l1: bytes, l2: bytes, l3: bytes)
    ensures Values(f, [l1, l2, l3]) == ValuesOfLine(f, l1) + ValuesOfLine(f, l2) + ValuesOfLine(f, l3)
  {
    var one, two, three := [l1], [l1, l2], [l1, l2, l3];
    assert one[..0] == [] && two[..1] == one && three[..2] == two;
    hide FieldOf, Name, Value, IsComment;
    assert Values(f, one) == ValuesOfLine(f, l1);
    assert Values(f, two) == Values(f, one) + ValuesOfLine(f, l2);
  }

  lemma KnownNames()
    ensures FieldOf(ID) == IdField && FieldOf(DATA) == DataField && COLON !in ID && COLON !in DATA
  {
  }

  /** The values of a block of two ids and a data line. */
  lemma ThreeLines(a: bytes, b: bytes, c: bytes)
    ensures var lines := [FieldLine(ID, a), FieldLine(ID, b), FieldLine(DATA, c)];
            && [] !in lines
            && Values(IdField, lines) == [a, b]
            && Values(DataField, lines) == [c]
            && Values(EventField, lines) == []
  {
    var l1, l2, l3 := FieldLine(ID, a), FieldLine(ID, b), FieldLine(DATA, c);
    FieldLineReads(ID, a);
    FieldLineReads(ID, b);
    FieldLineReads(DATA, c);
    KnownNames();
    hide FieldLine, FieldOf, Name, Value, IsComment, Values;
    ValuesOfThree(IdField, l1, l2, l3);
    ValuesOfThree(DataField, l1, l2, l3);
    ValuesOfThree(EventField, l1, l2, l3);
  }

  lemma TwoIds()
    ensures StandardId([], [[49], [NUL]]) == [49]
  {
    StandardIdSnoc([], [[49]], [NUL]);
    assert [[49]] + [[NUL]] == [[49], [NUL]];
  }

  /** A block that the two read differently: a valid id, then one with a NUL. */
  lemma IdTakenBack(caps: Caps)
    requires caps.data >= 1
    ensures var lines := [FieldLine(ID, [49]), FieldLine(ID, [NUL]), FieldLine(DATA, [])];
            && Delivered([], RunOut(caps, EMPTY, lines + [[]])) == [Message(MESSAGE, [], [])]
            && ReadLines(Reader([], [], []), lines + [[]]) == [Message(MESSAGE, [], [49])]
  {
    var lines := [FieldLine(ID, [49]), FieldLine(ID, [NUL]), FieldLine(DATA, [])];
    var data: seq<bytes> := [[]];
    ThreeLines([49], [NUL], []);
    TerminatedIsPayload(data);
    TwoIds();
    hide FieldLine, Values, RunOut, ReadLines, Delivered, StandardId, Terminated;
    DeliverBlock(caps, [], lines);
    DispatchBlock([], lines);
  }

  /** The same in a block without data takes back the id of the next event: what a
      block leaves behind matters though it delivers nothing. */
  lemma IdTakenBackWithoutData(caps: Caps)
    requires caps.data >= 1 && caps.id >= 2
    ensures var lines := [FieldLine(ID, [49]), FieldLine(ID, [NUL]), [], FieldLine(DATA, []), []];
            Delivered([], RunOut(caps, EMPTY, lines)) != ReadLines(Reader([], [], []), lines)
  {
    var l1, l2, l4 := FieldLine(ID, [49]), FieldLine(ID, [NUL]), FieldLine(DATA, []);
    FieldLineReads(ID, [49]);
    FieldLineReads(ID, [NUL]);
    FieldLineReads(DATA, []);
    KnownNames();
    RelatedLines(caps, Begin(Some([])), EMPTY, [], Reader([], [], []), [l1, l2, [], l4, []]);
    hide FieldLine, FieldOf, Name, Value, IsComment, RunOut, ReadLines, Delivered;
    var t := Track(0, true, None, Some([]), Some([49]));
    var u := Track(1, true, None, Some([]), Some([49]));
    assert Step(caps, Step(caps, Begin(Some([])), l1), l2) == t;
    assert Step(caps, t, []) == t && Step(caps, t, l4) == u && !Sound(u);
    hide Step, Sound;
    NotConforming(caps, Begin(Some([])), l1, [l2, [], l4, []]);
    NotConforming(caps, Step(caps, Begin(Some([])), l1), l2, [[], l4, []]);
    NotConforming(caps, t, [], [l4, []]);
    NotConforming(caps, t, l4, [[]]);
  }

  lemma NotConforming(caps: Caps, t: Track, line: bytes, rest: seq<bytes>)
    ensures Conforms(caps, t, [line] + rest) ==> Conforms(caps, Step(caps, t, line), rest)
    ensures line == [] && Conforms(caps, t, [line] + rest) ==> Sound(t)
  {
    assert ([line] + rest)[1..] == rest;
  }
}
