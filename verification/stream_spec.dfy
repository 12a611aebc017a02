/** The line-oriented reading of an event stream (section 9.2.6 of the WHATWG
    HTML Standard), with the parser's fixed buffer sizes: what each line does to
    the block being collected, and which callbacks it causes. */
module StreamSpec {
  import opened Bytes
  import opened Lines

  datatype Error =
    | DataTooLarge
    | IdInvalid
    | EventTypeTooLarge
    | InvalidRetry
    | UnknownField
    | EventTypeInvalid

  /** Everything a parser tells its user. */
  datatype Callback =
    | OnEvent(event: Option<bytes>, id: Option<bytes>, data: bytes)
    | OnId(value: bytes)
    | OnRetry(ms: nat)
    | OnError(err: Error)

  /** Sizes of the three caller-supplied buffers. */
  datatype Caps = Caps(data: nat, id: nat, event: nat)

  datatype Field = NoField | DataField | EventField | IdField | RetryField

  const DATA: bytes := [100, 97, 116, 97]
  const EVENT: bytes := [101, 118, 101, 110, 116]
  const ID: bytes := [105, 100]
  const RETRY: bytes := [114, 101, 116, 114, 121]

  /** The longest name of a known field. */
  const MAX_NAME: nat := 5

  /** What a block has collected: the values of its data lines and its event
      type, or nothing any more once it has been given up. */
  datatype Content = Live(values: seq<bytes>, event: bytes) | Discarded

  datatype Block = Block(content: Content, id: Option<bytes>)

  const EMPTY: Block := Block(Live([], []), None)

  // ---- reading one line ----

  function FieldOf(name: bytes): Field {
    if name == DATA then DataField
    else if name == EVENT then EventField
    else if name == ID then IdField
    else if name == RETRY then RetryField
    else NoField
  }

  function Colon(line: bytes): nat {
    IndexOf(line, COLON)
  }

  predicate HasColon(line: bytes) {
    Colon(line) < |line|
  }

  predicate IsComment(line: bytes) {
    line != [] && line[0] == COLON
  }

  function Name(line: bytes): bytes {
    line[..Colon(line)]
  }

  function AfterColon(line: bytes): bytes {
    if HasColon(line) then line[Colon(line) + 1..] else []
  }

  /** One space after the colon is not part of the value. */
  function Unpadded(raw: bytes): bytes {
    if raw != [] && raw[0] == SPACE then raw[1..] else raw
  }

  function Value(line: bytes): bytes {
    Unpadded(AfterColon(line))
  }

  // ---- what fits ----

  /** The data buffer: every value followed by an LF. */
  function Terminated(values: seq<bytes>): bytes {
    if values == [] then []
    else Terminated(values[..|values| - 1]) + values[|values| - 1] + [LF]
  }

  /** The payload of an event: its data values joined by LF. */
  function Payload(values: seq<bytes>): bytes {
    if values == [] then []
    else if |values| == 1 then values[0]
    else values[0] + [LF] + Payload(values[1..])
  }

  predicate DataFits(caps: Caps, values: seq<bytes>, v: bytes) {
    |Terminated(values)| + |v| < caps.data
  }

  predicate EventFits(caps: Caps, v: bytes) {
    v == [] || (NUL !in v && |v| < caps.event)
  }

  predicate IdFits(caps: Caps, v: bytes) {
    NUL !in v && |v| < caps.id
  }

  predicate RetryFits(v: bytes) {
    v != [] && forall i :: 0 <= i < |v| ==> IsDigit(v[i])
  }

  /** Why an event type does not fit: whichever comes first in it, a NUL or the
      byte for which there is no room. */
  function EventCause(caps: Caps, v: bytes): Error {
    if NUL in v[..Min(|v|, if caps.event == 0 then 1 else caps.event)] then EventTypeInvalid
    else EventTypeTooLarge
  }

  /** The number a digit string stands for. */
  function Decimal(v: bytes): nat
    requires forall i :: 0 <= i < |v| ==> IsDigit(v[i])
  {
    if v == [] then 0 else Decimal(v[..|v| - 1]) * 10 + DigitValue(v[|v| - 1])
  }

  function Saturated(v: bytes): nat
    requires forall i :: 0 <= i < |v| ==> IsDigit(v[i])
  {
    Min(Decimal(v), UINT32_MAX)
  }

  // ---- what one line does ----

  function FieldBlock(caps: Caps, blk: Block, f: Field, v: bytes): Block {
    match f
    case DataField =>
      if blk.content.Discarded? then blk
      else if DataFits(caps, blk.content.values, v) then
        blk.(content := blk.content.(values := blk.content.values + [v]))
      else blk.(content := Discarded)
    case EventField =>
      if blk.content.Discarded? then blk
      else if EventFits(caps, v) then blk.(content := blk.content.(event := v))
      else blk.(content := Discarded)
    case IdField => blk.(id := if IdFits(caps, v) then Some(v) else None)
    case _ => blk
  }

  function FieldOut(caps: Caps, blk: Block, f: Field, v: bytes): seq<Callback> {
    match f
    case NoField => [OnError(UnknownField)]
    case DataField =>
      if blk.content.Live? && !DataFits(caps, blk.content.values, v) then [OnError(DataTooLarge)] else []
    case EventField =>
      if blk.content.Live? && !EventFits(caps, v) then [OnError(EventCause(caps, v))] else []
    case IdField => if IdFits(caps, v) then [] else [OnError(IdInvalid)]
    case RetryField => if RetryFits(v) then [OnRetry(Saturated(v))] else [OnError(InvalidRetry)]
  }

  /** What a blank line causes: the id first, then the event, if there is one. */
  function DispatchOut(blk: Block): seq<Callback> {
    (if blk.id.Some? then [OnId(blk.id.value)] else []) + EventOut(blk)
  }

  function EventOut(blk: Block): seq<Callback> {
    if blk.content.Live? && blk.content.values != [] then
      [OnEvent(if blk.content.event == [] then None else Some(blk.content.event), blk.id,
               Payload(blk.content.values))]
    else []
  }

  function LineBlock(caps: Caps, blk: Block, line: bytes): Block {
    if line == [] then EMPTY
    else if IsComment(line) then blk
    else FieldBlock(caps, blk, FieldOf(Name(line)), Value(line))
  }

  function LineOut(caps: Caps, blk: Block, line: bytes): seq<Callback> {
    if line == [] then DispatchOut(blk)
    else if IsComment(line) then []
    else FieldOut(caps, blk, FieldOf(Name(line)), Value(line))
  }

  // ---- errors that do not wait for the end of the line ----

  function ValueOut(caps: Caps, blk: Block, f: Field, v: bytes): seq<Callback> {
    match f
    case DataField =>
      if blk.content.Live? && |Terminated(blk.content.values)| + |v| > caps.data then [OnError(DataTooLarge)]
      else []
    case RetryField => []
    case _ => FieldOut(caps, blk, f, v)
  }

  function PartialOut(caps: Caps, blk: Block, part: bytes): seq<Callback> {
    if part == [] || IsComment(part) then []
    else if HasColon(part) then ValueOut(caps, blk, FieldOf(Name(part)), Value(part))
    else if |part| > MAX_NAME then [OnError(UnknownField)]
    else []
  }

  // ---- the three kinds of unfinished line ----

  /** Nothing in the rest of this line matters. */
  predicate Skipped(part: bytes) {
    && part != []
    && (IsComment(part) || if HasColon(part) then FieldOf(Name(part)) == NoField else |part| > MAX_NAME)
  }

  /** The bytes so far may be the start of a known field's name. */
  predicate Naming(part: bytes) {
    part != [] && !HasColon(part) && |part| <= MAX_NAME
  }

  /** The line has a value of the known field `f`. */
  predicate Valued(part: bytes, f: Field) {
    HasColon(part) && !IsComment(part) && f == FieldOf(Name(part)) != NoField
  }

  // ---- whole streams ----

  function RunBlock(caps: Caps, blk: Block, lines: seq<bytes>): Block
    decreases lines
  {
    if lines == [] then blk else RunBlock(caps, LineBlock(caps, blk, lines[0]), lines[1..])
  }

  function RunOut(caps: Caps, blk: Block, lines: seq<bytes>): seq<Callback>
    decreases lines
  {
    if lines == [] then []
    else LineOut(caps, blk, lines[0]) + RunOut(caps, LineBlock(caps, blk, lines[0]), lines[1..])
  }

  /** Every callback caused by a stream without a byte order mark, in order. */
  function BodyTrace(caps: Caps, body: bytes): seq<Callback> {
    var s := SplitLines(body);
    RunOut(caps, EMPTY, s.lines) + PartialOut(caps, RunBlock(caps, EMPTY, s.lines), s.rest)
  }

  function StreamTrace(caps: Caps, stream: bytes): seq<Callback> {
    BodyTrace(caps, StripBom(stream))
  }

  /** What every reachable block satisfies. */
  predicate Fits(caps: Caps, blk: Block) {
    && (blk.content.Live? ==>
          && |Terminated(blk.content.values)| <= caps.data
          && EventFits(caps, blk.content.event))
    && (blk.id.Some? ==> IdFits(caps, blk.id.value))
  }
}
