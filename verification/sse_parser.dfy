/** The byte-at-a-time parser of src/sse_parser.c. It never holds a line: each
    method is proved against the line-oriented reading of StreamSpec. */
module Parser {
  import opened Bytes
  import opened Lines
  import opened StreamSpec
  import opened StreamLemmas

  datatype State = Bom | LineStart | FieldName | AfterColonState | ValueState | SkipLine

  /** Where the bytes `part` of an unfinished line lead. */
  ghost predicate Reached(s: State, f: Field, part: bytes) {
    match s
    case Bom => false
    case LineStart => part == []
    case FieldName => Naming(part)
    case AfterColonState => Valued(part, f) && AfterColon(part) == []
    case ValueState => Valued(part, f) && AfterColon(part) != []
    case SkipLine => Skipped(part)
  }

  /** The field and the value bytes that the buffers hold beyond the block. */
  ghost function Writing(s: State, f: Field): Field {
    if s == AfterColonState || s == ValueState then f else NoField
  }

  ghost function Written(s: State, part: bytes): bytes {
    if s == AfterColonState || s == ValueState then Value(part) else []
  }

  class SseParser {
    // The caller's buffers.
    const dataBuf: array<byte>
    const idBuf: array<byte>
    const eventBuf: array<byte>

    const name: array<byte>
    var state: State
    var field: Field
    var swallowLf: bool
    var bomN: nat
    var nameLen: nat
    var dataLen: nat
    var dataLines: nat
    var blockDiscarded: bool
    var eventLen: nat
    var hasEvent: bool
    var idLen: nat
    var hasId: bool
    var idInvalid: bool
    var retryAcc: nat
    var retrySeenDigit: bool
    var retryInvalid: bool

    /** The user's record of the callbacks, in order. */
    var log: seq<Callback>

    // What the fields stand for: the bytes fed since the last reset, and those
    // after the byte order mark; the log at that reset and at the start of the
    // current line; the block collected by the lines before it, and its bytes.
    ghost var fed: bytes
    ghost var body: bytes
    ghost var base: seq<Callback>
    ghost var mark: seq<Callback>
    ghost var blk: Block
    ghost var part: bytes

    ghost function MyCaps(): Caps {
      Caps(dataBuf.Length, idBuf.Length, eventBuf.Length)
    }

    ghost predicate GoodBuffers() {
      && dataBuf != idBuf && dataBuf != eventBuf && dataBuf != name
      && idBuf != eventBuf && idBuf != name && eventBuf != name
      && idBuf.Length >= 1
      && name.Length == 8
    }

    ghost predicate InBounds()
      reads this`dataLen, this`eventLen, this`idLen
    {
      && GoodBuffers()
      && dataLen <= dataBuf.Length
      && eventLen <= eventBuf.Length
      && idLen < idBuf.Length
    }

    ghost predicate EventText(v: bytes)
      reads this`eventLen, eventBuf
    {
      eventLen == |v| <= eventBuf.Length && eventBuf[..eventLen] == v
    }

    ghost predicate IdText(v: bytes)
      reads this`idLen, idBuf
    {
      idLen == |v| < idBuf.Length && idBuf[..idLen] == v
    }

    ghost predicate DataText(v: bytes)
      reads this`dataLen, dataBuf
    {
      dataLen == |v| <= dataBuf.Length && dataBuf[..dataLen] == v
    }

    /** The block is still deliverable after the bytes `v` of field `f`. */
    ghost predicate Survives(blk: Block, f: Field, v: bytes) {
      && blk.content.Live?
      && (f == DataField ==> |Terminated(blk.content.values)| + |v| <= dataBuf.Length)
      && (f == EventField ==> EventFits(MyCaps(), v))
    }

    /** The fields and buffers hold the block `blk`, and the bytes `v` of a value
        of field `f` on top of it (nothing when `f` is NoField). */
    ghost predicate Held(blk: Block, f: Field, v: bytes)
      reads this`dataLen, this`dataLines, this`blockDiscarded, this`eventLen, this`hasEvent
      reads this`idLen, this`hasId, this`idInvalid
      reads this`retryAcc, this`retrySeenDigit, this`retryInvalid
      reads dataBuf, idBuf, eventBuf
    {
      && InBounds()
      && Fits(MyCaps(), blk)
      && blockDiscarded == !Survives(blk, f, v)
      && (Survives(blk, f, v) ==>
            && dataLines == |blk.content.values|
            && DataText(Terminated(blk.content.values) + if f == DataField then v else [])
            && EventText(if f == EventField then v else blk.content.event)
            && (f != EventField ==> hasEvent == (blk.content.event != [])))
      && (if f == IdField then
            && idInvalid == !IdFits(MyCaps(), v)
            && (IdFits(MyCaps(), v) ==> IdText(v))
          else
            && hasId == blk.id.Some?
            && (hasId ==> IdText(blk.id.value)))
      && (f == RetryField ==>
            && retryInvalid == !(forall i :: 0 <= i < |v| ==> IsDigit(v[i]))
            && (!retryInvalid ==> retryAcc == Saturated(v) && retrySeenDigit == (v != [])))
    }

    /** The state within the current line is the one its bytes `part` lead to. */
    ghost predicate LineHeld()
      reads this`log, this`mark, this`blk, this`part, this`state, this`field, this`nameLen
      reads this`dataLen, this`dataLines, this`blockDiscarded, this`eventLen, this`hasEvent
      reads this`idLen, this`hasId, this`idInvalid
      reads this`retryAcc, this`retrySeenDigit, this`retryInvalid
      reads dataBuf, idBuf, eventBuf, name
    {
      && log == mark + PartialOut(MyCaps(), blk, part)
      && Reached(state, field, part)
      && (state == FieldName ==> NameText(part)) && nameLen <= MAX_NAME + 1
      && Held(blk, Writing(state, field), Written(state, part))
    }

    ghost predicate NameText(n: bytes)
      reads this`nameLen, name
    {
      name.Length == 8 && nameLen == |n| <= MAX_NAME + 1 && name[..nameLen] == n
    }

    /** The current line, its block and its log are those of the bytes `body`. */
    ghost predicate LineLinked()
      reads this`body, this`base
      reads this`log, this`mark, this`blk, this`part, this`state, this`field, this`nameLen
      reads this`dataLen, this`dataLines, this`blockDiscarded, this`eventLen, this`hasEvent
      reads this`idLen, this`hasId, this`idInvalid
      reads this`retryAcc, this`retrySeenDigit, this`retryInvalid
      reads dataBuf, idBuf, eventBuf, name
    {
      var s := SplitLines(body);
      && LineHeld()
      && part == s.rest
      && blk == RunBlock(MyCaps(), EMPTY, s.lines)
      && mark == base + RunOut(MyCaps(), EMPTY, s.lines)
    }

    /** Nothing but a beginning of a byte order mark has been seen. */
    ghost predicate BomLinked()
      reads this`body, this`base, this`log, this`mark, this`blk, this`part, this`bomN, this`swallowLf, this`nameLen
      reads this`dataLen, this`dataLines, this`blockDiscarded, this`eventLen, this`hasEvent
      reads this`idLen, this`hasId, this`idInvalid
      reads this`retryAcc, this`retrySeenDigit, this`retryInvalid
      reads dataBuf, idBuf, eventBuf
    {
      && bomN <= 3 && nameLen <= MAX_NAME + 1 && body == [] && !swallowLf
      && part == [] && blk == EMPTY && log == mark == base
      && Held(EMPTY, NoField, [])
    }

    ghost predicate Linked()
      reads this, dataBuf, idBuf, eventBuf, name
    {
      if state == Bom then bomN < 3 && BomLinked() else LineLinked() && swallowLf == EndsWithCr(body)
    }

    ghost predicate Valid()
      reads this, dataBuf, idBuf, eventBuf, name
    {
      && Linked()
      && if state == Bom then fed == BOM[..bomN] else !AwaitsBom(fed) && body == StripBom(fed)
    }

    lemma HeldFits(f: Field, v: bytes)
      requires Held(blk, f, v)
      ensures GoodBuffers() && Fits(MyCaps(), blk) && MyCaps().id >= 1
    {
    }

    // ---- reporting ----

    method EmitError(err: Error)
      modifies this`log
      ensures log == old(log) + [OnError(err)]
    {
      log := log + [OnError(err)];
    }

    method DiscardBlock(err: Error)
      modifies this`log, this`blockDiscarded
      ensures blockDiscarded
      ensures log == old(log) + if old(blockDiscarded) then [] else [OnError(err)]
    {
      if !blockDiscarded {
        blockDiscarded := true;
        EmitError(err);
      }
    }

    // ---- one field value ----

    method StartValue()
      requires Held(blk, NoField, []) && field != NoField
      modifies this`eventLen, this`idLen, this`idInvalid, this`retryAcc, this`retrySeenDigit, this`retryInvalid
      ensures Held(blk, field, [])
    {
      match field {
        case EventField =>
          eventLen := 0;
        case IdField =>
          idLen := 0;
          idInvalid := false;
        case RetryField =>
          retryAcc := 0;
          retrySeenDigit := false;
          retryInvalid := false;
        case _ =>
      }
    }

    method DataByte(b: byte, ghost v: bytes)
      requires Held(blk, DataField, v) && log == mark + ValueOut(MyCaps(), blk, DataField, v)
      modifies this`dataLen, this`blockDiscarded, this`log, dataBuf
      ensures Held(blk, DataField, v + [b]) && log == mark + ValueOut(MyCaps(), blk, DataField, v + [b])
    {
      if blockDiscarded {
        return;
      }
      ghost var t := Terminated(blk.content.values);
      assert t + (v + [b]) == (t + v) + [b];
      if dataLen == dataBuf.Length {
        DiscardBlock(DataTooLarge);
        return;
      }
      AppendData(b, t + v);
    }

    method EventByte(b: byte, ghost v: bytes)
      requires Held(blk, EventField, v) && log == mark + ValueOut(MyCaps(), blk, EventField, v)
      modifies this`eventLen, this`blockDiscarded, this`log, eventBuf
      ensures Held(blk, EventField, v + [b]) && log == mark + ValueOut(MyCaps(), blk, EventField, v + [b])
    {
      EventCauseSnoc(MyCaps(), v, b);
      if blockDiscarded {
        return;
      }
      if b == NUL {
        DiscardBlock(EventTypeInvalid);
        return;
      }
      if eventLen + 1 >= eventBuf.Length {
        DiscardBlock(EventTypeTooLarge);
        return;
      }
      eventBuf[eventLen] := b;
      eventLen := eventLen + 1;
      assert eventBuf[..eventLen] == v + [b];
    }

    method IdByte(b: byte, ghost v: bytes)
      requires Held(blk, IdField, v) && log == mark + ValueOut(MyCaps(), blk, IdField, v)
      modifies this`idLen, this`idInvalid, this`log, idBuf
      ensures Held(blk, IdField, v + [b]) && log == mark + ValueOut(MyCaps(), blk, IdField, v + [b])
    {
      IdFitsSnoc(MyCaps(), v, b);
      if idInvalid {
        return;
      }
      if b == NUL || idLen + 1 >= idBuf.Length {
        idInvalid := true;
        EmitError(IdInvalid);
        return;
      }
      idBuf[idLen] := b;
      idLen := idLen + 1;
      assert idBuf[..idLen] == v + [b];
    }

    method RetryByte(b: byte, ghost v: bytes)
      requires Held(blk, RetryField, v) && log == mark
      modifies this`retryAcc, this`retrySeenDigit, this`retryInvalid
      ensures Held(blk, RetryField, v + [b])
    {
      hide Fits, InBounds, DataText, EventText, IdText, Decimal, Saturated;
      assert forall i :: 0 <= i < |v| ==> (v + [b])[i] == v[i];
      assert (v + [b])[|v|] == b;
      if retryInvalid {
        return;
      }
      if !IsDigit(b) {
        retryInvalid := true;
        return;
      }
      SaturatedSnoc(v, b);
      retrySeenDigit := true;
      if retryAcc > (UINT32_MAX - DigitValue(b)) / 10 {
        retryAcc := UINT32_MAX;
      } else {
        retryAcc := retryAcc * 10 + DigitValue(b);
      }
    }

    method ValueByte(b: byte, ghost v: bytes)
      requires Held(blk, field, v) && field != NoField
      requires log == mark + ValueOut(MyCaps(), blk, field, v)
      modifies this`dataLen, this`eventLen, this`idLen, this`blockDiscarded, this`idInvalid
      modifies this`retryAcc, this`retrySeenDigit, this`retryInvalid, this`log, dataBuf, idBuf, eventBuf
      ensures Held(blk, field, v + [b]) && log == mark + ValueOut(MyCaps(), blk, field, v + [b])
    {
      match field {
        case DataField => DataByte(b, v);
        case EventField => EventByte(b, v);
        case IdField => IdByte(b, v);
        case RetryField => RetryByte(b, v);
      }
    }

    method CommitData(ghost v: bytes)
      requires Held(blk, DataField, v) && log == mark + ValueOut(MyCaps(), blk, DataField, v)
      modifies this`dataLen, this`dataLines, this`blockDiscarded, this`log, dataBuf
      ensures Held(FieldBlock(MyCaps(), blk, DataField, v), NoField, [])
      ensures log == mark + FieldOut(MyCaps(), blk, DataField, v)
    {
      if blockDiscarded {
        return;
      }
      if dataLen == dataBuf.Length {
        DiscardBlock(DataTooLarge);
        return;
      }
      EndDataLine(v);
    }

    method EndDataLine(ghost v: bytes)
      requires Held(blk, DataField, v) && Survives(blk, DataField, v) && dataLen < dataBuf.Length
      modifies this`dataLen, this`dataLines, dataBuf
      ensures Held(blk.(content := blk.content.(values := blk.content.values + [v])), NoField, [])
    {
      ghost var t := Terminated(blk.content.values);
      TerminatedSnoc(blk.content.values, v);
      hide Terminated, EventFits, IdFits, IdText, EventText, Saturated, IsDigit;
      AppendData(LF, t + v);
      dataLines := dataLines + 1;
      assert t + v + [LF] + [] == t + v + [LF];
      hide DataText;
    }

    method AppendData(b: byte, ghost v: bytes)
      requires DataText(v) && dataLen < dataBuf.Length
      modifies this`dataLen, dataBuf
      ensures DataText(v + [b])
    {
      dataBuf[dataLen] := b;
      dataLen := dataLen + 1;
      assert dataBuf[..dataLen] == v + [b];
    }

    method CommitId(ghost v: bytes)
      requires Held(blk, IdField, v) && log == mark + ValueOut(MyCaps(), blk, IdField, v)
      modifies this`idLen, this`hasId
      ensures Held(FieldBlock(MyCaps(), blk, IdField, v), NoField, [])
      ensures log == mark + FieldOut(MyCaps(), blk, IdField, v)
    {
      if idInvalid {
        idLen := 0;
        hasId := false;
      } else {
        hasId := true;
      }
    }

    method CommitRetry(ghost v: bytes)
      requires Held(blk, RetryField, v) && log == mark
      modifies this`log
      ensures Held(blk, NoField, [])
      ensures log == mark + FieldOut(MyCaps(), blk, RetryField, v)
    {
      if retryInvalid || !retrySeenDigit {
        EmitError(InvalidRetry);
      } else {
        log := log + [OnRetry(retryAcc)];
      }
    }

    method CommitEvent(ghost v: bytes)
      requires Held(blk, EventField, v) && log == mark + ValueOut(MyCaps(), blk, EventField, v)
      modifies this`hasEvent
      ensures Held(FieldBlock(MyCaps(), blk, EventField, v), NoField, [])
      ensures log == mark + FieldOut(MyCaps(), blk, EventField, v)
    {
      hasEvent := eventLen > 0;
    }

    method CommitValue(ghost v: bytes)
      requires Held(blk, field, v) && field != NoField
      requires log == mark + ValueOut(MyCaps(), blk, field, v)
      modifies this`field, this`dataLen, this`dataLines, this`blockDiscarded, this`hasEvent
      modifies this`idLen, this`hasId, this`log, dataBuf
      ensures Held(FieldBlock(MyCaps(), blk, old(field), v), NoField, []) && field == NoField
      ensures log == mark + FieldOut(MyCaps(), blk, old(field), v)
    {
      match field {
        case DataField => CommitData(v);
        case EventField => CommitEvent(v);
        case IdField => CommitId(v);
        case RetryField => CommitRetry(v);
      }
      field := NoField;
    }

    // ---- lines ----

    method DispatchId()
      requires Held(blk, NoField, [])
      modifies this`log, idBuf
      ensures Held(blk, NoField, [])
      ensures log == old(log) + if blk.id.Some? then [OnId(blk.id.value)] else []
      ensures blk.id.Some? ==> CString(idBuf[..]) == blk.id.value
    {
      if hasId {
        idBuf[idLen] := NUL;
        CStringOf(idBuf[..], blk.id.value);
        log := log + [OnId(idBuf[..idLen])];
      }
    }

    /** The event type as its reader sees it: a C string, or null. */
    method EventPointer() returns (event: Option<bytes>)
      requires Held(blk, NoField, []) && blk.content.Live?
      modifies eventBuf
      ensures event == if blk.content.event == [] then None else Some(blk.content.event)
    {
      if !hasEvent {
        return None;
      }
      eventBuf[eventLen] := NUL;
      CStringOf(eventBuf[..], blk.content.event);
      return Some(CString(eventBuf[..]));
    }

    method DispatchEvent()
      requires Held(blk, NoField, [])
      requires blk.id.Some? ==> CString(idBuf[..]) == blk.id.value
      modifies this`log, dataBuf, eventBuf
      ensures log == old(log) + EventOut(blk)
    {
      if blockDiscarded || dataLines == 0 {
        return;
      }
      ghost var t := Terminated(blk.content.values);
      TerminatedIsPayload(blk.content.values);
      assert t + [] == t;
      var event := EventPointer();
      var n := dataLen - 1;
      assert dataBuf[..n] == t[..n] == Payload(blk.content.values);
      dataBuf[n] := NUL;
      assert dataBuf[..n] == t[..n];
      log := log + [OnEvent(event, if hasId then Some(CString(idBuf[..])) else None, dataBuf[..n])];
    }

    method DispatchBlock()
      requires Held(blk, NoField, [])
      modifies this`log, this`dataLen, this`dataLines, this`blockDiscarded, this`eventLen, this`hasEvent
      modifies this`idLen, this`hasId, this`idInvalid, dataBuf, idBuf, eventBuf
      ensures Held(EMPTY, NoField, []) && log == old(log) + DispatchOut(blk)
    {
      hide Held, EventOut;
      HeldFits(NoField, []);
      DispatchId();
      DispatchEvent();
      EmptyBlock();
    }

    method EmptyBlock()
      requires GoodBuffers()
      modifies this`dataLen, this`dataLines, this`blockDiscarded, this`eventLen, this`hasEvent
      modifies this`idLen, this`hasId, this`idInvalid
      ensures Held(EMPTY, NoField, [])
    {
      dataLen := 0;
      dataLines := 0;
      blockDiscarded := false;
      eventLen := 0;
      hasEvent := false;
      idLen := 0;
      hasId := false;
      idInvalid := false;
    }

    /** `name` is complete: the field it names begins, or the line is skipped. */
    method ResolveFieldName(ghost n: bytes)
      requires Held(blk, NoField, []) && log == mark
      requires NameText(n) && |n| <= MAX_NAME
      modifies this`state, this`field, this`log
      modifies this`eventLen, this`idLen, this`idInvalid, this`retryAcc, this`retrySeenDigit, this`retryInvalid
      ensures if FieldOf(n) == NoField then
                state == SkipLine && Held(blk, NoField, []) && log == mark + [OnError(UnknownField)]
              else
                state == AfterColonState && field == FieldOf(n) && Held(blk, field, []) && log == mark
    {
      hide Held, FieldOf, Fits;
      field := FieldOf(name[..nameLen]);
      if field == NoField {
        EmitError(UnknownField);
        state := SkipLine;
        return;
      }
      StartValue();
      state := AfterColonState;
    }

    /** The effect of the line `part`, now that it is complete. */
    method FinishLine()
      requires LineHeld()
      modifies this`state, this`field, this`log, this`dataLen, this`dataLines, this`blockDiscarded
      modifies this`eventLen, this`hasEvent, this`idLen, this`hasId, this`idInvalid
      modifies this`retryAcc, this`retrySeenDigit, this`retryInvalid, dataBuf, idBuf, eventBuf
      ensures Held(LineBlock(MyCaps(), blk, part), NoField, [])
      ensures log == mark + LineOut(MyCaps(), blk, part)
    {
      hide Held, LineBlock, LineOut, PartialOut, FieldBlock, FieldOut, ValueOut, FieldOf, Fits;
      hide Valued, Naming, Skipped, Value, AfterColon, DispatchOut;
      HeldFits(Writing(state, field), Written(state, part));
      match state {
        case LineStart =>
          BlankLine(MyCaps(), blk);
          DispatchBlock();
        case FieldName =>
          NamedLine(MyCaps(), blk, part);
          ResolveFieldName(part);
          if state == AfterColonState {
            CommitValue([]);
          }
        case AfterColonState =>
          ValuedLine(MyCaps(), blk, part, field);
          CommitValue(Value(part));
        case ValueState =>
          ValuedLine(MyCaps(), blk, part, field);
          CommitValue(Value(part));
        case SkipLine =>
          SkippedLine(MyCaps(), blk, part);
      }
    }

    method LineEnd()
      requires LineHeld()
      modifies this`state, this`field, this`log, this`dataLen, this`dataLines, this`blockDiscarded
      modifies this`eventLen, this`hasEvent, this`idLen, this`hasId, this`idInvalid
      modifies this`retryAcc, this`retrySeenDigit, this`retryInvalid, dataBuf, idBuf, eventBuf
      modifies this`blk, this`part, this`mark
      ensures LineHeld() && state == LineStart && part == [] && mark == log
      ensures blk == LineBlock(MyCaps(), old(blk), old(part))
      ensures log == old(mark) + LineOut(MyCaps(), old(blk), old(part))
    {
      hide Held, LineBlock, LineOut, PartialOut, Fits, Valued, Naming, Skipped, AfterColon;
      FinishLine();
      state := LineStart;
      NextLine(LineBlock(MyCaps(), blk, part));
    }

    ghost method NextLine(next: Block)
      requires state == LineStart && Held(next, NoField, []) && nameLen <= MAX_NAME + 1
      modifies this`blk, this`part, this`mark
      ensures LineHeld() && blk == next && part == [] && mark == log
    {
      hide Held, PartialOut, Fits, Valued, Naming, Skipped, AfterColon;
      BlankLine(MyCaps(), next);
      blk, part, mark := next, [], log;
    }

    method AppendName(b: byte, ghost n: bytes)
      requires NameText(n) && |n| <= MAX_NAME
      modifies this`nameLen, name
      ensures NameText(n + [b])
    {
      if nameLen < name.Length {
        name[nameLen] := b;
        nameLen := nameLen + 1;
      }
    }

    /** A byte of a field name, or the colon after it. */
    method NameByte(b: byte)
      requires state == FieldName && Held(blk, NoField, []) && log == mark
      requires ((part == [] && b != COLON) || Naming(part)) && NameText(part)
      modifies this`state, this`field, this`log, this`nameLen, name, this`part
      modifies this`eventLen, this`idLen, this`idInvalid, this`retryAcc, this`retrySeenDigit, this`retryInvalid
      ensures LineHeld() && part == old(part) + [b]
    {
      hide Held, PartialOut, FieldOf, Fits, Valued, Naming, Skipped, AfterColon;
      HeldFits(NoField, []);
      NamingSnoc(MyCaps(), blk, part, b);
      if b == COLON {
        ResolveFieldName(part);
      } else {
        AppendName(b, part);
        if nameLen > MAX_NAME {
          EmitError(UnknownField);
          state := SkipLine;
        }
      }
      part := part + [b];
    }

    /** A byte of a value; one space after the colon is skipped. */
    method PaddedByte(b: byte)
      requires LineHeld() && (state == AfterColonState || state == ValueState)
      modifies this`state, this`part
      modifies this`dataLen, this`eventLen, this`idLen, this`blockDiscarded, this`idInvalid
      modifies this`retryAcc, this`retrySeenDigit, this`retryInvalid, this`log, dataBuf, idBuf, eventBuf
      ensures LineHeld() && part == old(part) + [b]
    {
      hide Held, PartialOut, ValueOut, FieldOf, Fits, Valued, Naming, Skipped, Value, AfterColon;
      HeldFits(field, Value(part));
      ValuedSnoc(MyCaps(), blk, part, field, b);
      if state == ValueState || b != SPACE {
        ValueByte(b, Value(part));
      }
      state := ValueState;
      part := part + [b];
    }

    method SkippedByte(b: byte)
      requires LineHeld() && (if state == LineStart then b == COLON else state == SkipLine)
      modifies this`state, this`part
      ensures LineHeld() && part == old(part) + [b]
    {
      if state == LineStart {
        CommentStart(MyCaps(), blk);
      } else {
        SkippedSnoc(MyCaps(), blk, part, b);
      }
      hide Held, PartialOut, Skipped, Valued, Naming, AfterColon;
      state := SkipLine;
      part := part + [b];
    }

    /** A byte that ends no line. */
    method ContentByte(b: byte)
      requires LineHeld() && !IsTerminator(b)
      modifies this, dataBuf, idBuf, eventBuf, name
      ensures LineHeld() && state != Bom && part == old(part) + [b] && blk == old(blk) && mark == old(mark)
      ensures body == old(body) && fed == old(fed) && base == old(base) && swallowLf == old(swallowLf)
    {
      hide Held, PartialOut, Skipped, Valued, Naming, AfterColon, FieldOf, Value, Fits;
      HeldFits(Writing(state, field), Written(state, part));
      match state {
        case LineStart =>
          if b == COLON {
            SkippedByte(b);
            return;
          }
          BlankLine(MyCaps(), blk);
          state := FieldName;
          nameLen := 0;
          NameByte(b);
        case FieldName =>
          NamingSnoc(MyCaps(), blk, part, b);
          NameByte(b);
        case SkipLine =>
          SkippedByte(b);
        case AfterColonState =>
          PaddedByte(b);
        case ValueState =>
          PaddedByte(b);
      }
    }

    // ---- bytes ----

    /** A byte after the byte order mark that is not swallowed. */
    method LineByte(b: byte)
      requires LineLinked() && !swallowLf && !(b == LF && EndsWithCr(body))
      modifies this, dataBuf, idBuf, eventBuf, name
      ensures LineLinked() && state != Bom && body == old(body) + [b] && swallowLf == (b == CR)
      ensures base == old(base) && fed == old(fed)
    {
      hide LineHeld, RunOut, RunBlock, SplitLines, LineBlock, LineOut;
      SplitSnoc(body, b);
      RunSnoc(MyCaps(), EMPTY, SplitLines(body).lines, part);
      if b == CR {
        LineEnd();
        swallowLf := true;
      } else if b == LF {
        LineEnd();
      } else {
        ContentByte(b);
      }
      body := body + [b];
      ConcatAssociates(base, RunOut(MyCaps(), EMPTY, SplitLines(old(body)).lines),
                       LineOut(MyCaps(), old(blk), old(part)));
    }

    /** A line starts where the byte order mark would have been. */
    method BeginStream()
      requires BomLinked() && state == Bom
      modifies this`state, this`bomN
      ensures LineLinked() && state == LineStart
    {
      hide Held;
      bomN := 0;
      state := LineStart;
      BlankLine(MyCaps(), EMPTY);
      SplitNone([]);
    }

    method ProcessByte(b: byte)
      requires Linked()
      modifies this, dataBuf, idBuf, eventBuf, name
      ensures Linked() && base == old(base) && fed == old(fed)
      ensures if old(state) != Bom then state != Bom && body == old(body) + [b]
              else if b != BOM[old(bomN)] then state != Bom && body == BOM[..old(bomN)] + [b]
              else body == [] && if old(bomN) == 2 then state != Bom else state == Bom && bomN == old(bomN) + 1
      decreases state == Bom
    {
      hide Held, LineLinked;
      if swallowLf {
        swallowLf := false;
        if b == LF {
          SwallowedLf();
          return;
        }
      }
      if state == Bom {
        if b == BOM[bomN] {
          bomN := bomN + 1;
          if bomN == 3 {
            BeginStream();
          }
          return;
        }
        var n := bomN;
        BeginStream();
        for i := 0 to n
          invariant state != Bom && Linked() && body == BOM[..i]
          invariant base == old(base) && fed == old(fed)
        {
          ProcessByte(BOM[i]);
        }
      }
      LineByte(b);
    }

    /** The second half of a CRLF. */
    ghost method SwallowedLf()
      requires LineLinked() && EndsWithCr(body)
      modifies this`body
      ensures LineLinked() && body == old(body) + [LF]
    {
      hide LineHeld, RunOut, RunBlock, SplitLines;
      SplitSnoc(body, LF);
      body := body + [LF];
    }

    // ---- the public interface ----

    constructor (dataBuf: array<byte>, idBuf: array<byte>, eventBuf: array<byte>)
      requires dataBuf != idBuf && dataBuf != eventBuf && idBuf != eventBuf && idBuf.Length >= 1
      ensures Valid() && GoodBuffers() && fresh(name) && fed == [] && log == base == []
      ensures this.dataBuf == dataBuf && this.idBuf == idBuf && this.eventBuf == eventBuf
    {
      this.dataBuf, this.idBuf, this.eventBuf := dataBuf, idBuf, eventBuf;
      name := new byte[8];
      state, field := Bom, NoField;
      swallowLf, bomN, nameLen := false, 0, 0;
      dataLen, dataLines, blockDiscarded := 0, 0, false;
      eventLen, hasEvent := 0, false;
      idLen, hasId, idInvalid := 0, false, false;
      retryAcc, retrySeenDigit, retryInvalid := 0, false, false;
      log := [];
      fed, body, base, mark, blk, part := [], [], [], [], EMPTY, [];
    }

    method ClearBlock()
      requires GoodBuffers()
      modifies this`dataLen, this`dataLines, this`blockDiscarded, this`eventLen, this`hasEvent
      modifies this`idLen, this`hasId, this`idInvalid
      modifies this`retryAcc, this`retrySeenDigit, this`retryInvalid
      ensures Held(EMPTY, NoField, [])
    {
      hide Held;
      retryAcc, retrySeenDigit, retryInvalid := 0, false, false;
      EmptyBlock();
    }

    /** Start over for a new connection: nothing of the old one remains, whatever
        state it was left in. */
    method Reset()
      requires GoodBuffers()
      modifies this
      ensures Valid() && fed == [] && log == base == old(log)
    {
      hide Held, LineLinked, GoodBuffers, AwaitsBom, StripBom;
      state, field := Bom, NoField;
      swallowLf, bomN, nameLen := false, 0, 0;
      ClearBlock();
      Forget();
    }

    ghost method Forget()
      modifies this`fed, this`body, this`base, this`mark, this`blk, this`part
      ensures fed == body == part == [] && base == mark == log && blk == EMPTY
    {
      fed, body, base, mark, blk, part := [], [], log, log, EMPTY, [];
    }

    /** The refinement: however the stream is cut into chunks, the callbacks are
        those of the line-oriented reading of all its bytes. */
    method Feed(chunk: array<byte>, len: nat)
      requires Valid() && len <= chunk.Length
      requires chunk != dataBuf && chunk != idBuf && chunk != eventBuf && chunk != name
      modifies this, dataBuf, idBuf, eventBuf, name
      ensures Valid() && fed == old(fed) + chunk[..len] && base == old(base)
      ensures log == base + StreamTrace(MyCaps(), fed)
    {
      hide Valid;
      for i := 0 to len
        invariant Valid() && fed == old(fed) + chunk[..i] && base == old(base)
      {
        FeedByte(chunk[i]);
        assert chunk[..i + 1] == chunk[..i] + [chunk[i]];
      }
      LogIsTrace();
    }

    method FeedByte(b: byte)
      requires Valid()
      modifies this, dataBuf, idBuf, eventBuf, name
      ensures Valid() && fed == old(fed) + [b] && base == old(base)
    {
      hide LineLinked, BomLinked, StripBom, AwaitsBom;
      FedByte(fed, b);
      ProcessByte(b);
      fed := fed + [b];
    }

    /** How the bytes after the byte order mark follow from those before. */
    lemma FedByte(s: bytes, b: byte)
      requires if state == Bom then bomN < 3 && s == BOM[..bomN] else !AwaitsBom(s)
      ensures if state != Bom then !AwaitsBom(s + [b]) && StripBom(s + [b]) == StripBom(s) + [b]
              else if b != BOM[bomN] then !AwaitsBom(s + [b]) && StripBom(s + [b]) == s + [b]
              else if bomN == 2 then !AwaitsBom(s + [b]) && StripBom(s + [b]) == []
              else s + [b] == BOM[..bomN + 1]
    {
      if state != Bom {
        StripBomSnoc(s, b);
      } else {
        assert s + [b] == BOM[..bomN] + [b];
        assert BOM[..bomN + 1] == BOM[..bomN] + [BOM[bomN]];
        assert s + [b] <= BOM <==> b == BOM[bomN] by {
          assert (s + [b])[bomN] == b;
        }
      }
    }

    lemma LogIsTrace()
      requires Valid()
      ensures log == base + StreamTrace(MyCaps(), fed)
    {
      var s := SplitLines(StripBom(fed));
      if state == Bom {
        assert NoTerminator(fed) && StripBom(fed) == fed;
        SplitNone(fed);
        IndexOfIs(fed, COLON, |fed|);
        assert base + ([] + []) == base;
      } else {
        ConcatAssociates(base, RunOut(MyCaps(), EMPTY, s.lines), PartialOut(MyCaps(), blk, part));
      }
    }
  }
}
