/** From callbacks to delivered messages, and the round trip: a server that
    writes a list of events has exactly that list delivered. */
module Messages {
  import opened Bytes
  import opened Lines
  import opened StreamSpec
  import opened StreamLemmas

  /** What the user's on_message receives. */
  datatype Message = Message(event: bytes, data: bytes, lastId: bytes)

  const MESSAGE: bytes := [109, 101, 115, 115, 97, 103, 101]

  /** The stored last event id after some callbacks. */
  function LastId(id: bytes, cbs: seq<Callback>): bytes
    decreases cbs
  {
    if cbs == [] then id
    else LastId(if cbs[0].OnId? then cbs[0].value else id, cbs[1..])
  }

  /** The messages that some callbacks lead to, when the stored id is `id`. */
  function Delivered(id: bytes, cbs: seq<Callback>): seq<Message>
    decreases cbs
  {
    if cbs == [] then []
    else match cbs[0]
      case OnId(v) => Delivered(v, cbs[1..])
      case OnEvent(event, _, data) =>
        [Message(if event.Some? then event.value else MESSAGE, data, id)] + Delivered(id, cbs[1..])
      case _ => Delivered(id, cbs[1..])
  }

  lemma {:induction false} DeliveredConcat(id: bytes, a: seq<Callback>, b: seq<Callback>)
    ensures LastId(id, a + b) == LastId(LastId(id, a), b)
    ensures Delivered(id, a + b) == Delivered(id, a) + Delivered(LastId(id, a), b)
    decreases a
  {
    if a == [] {
      assert a + b == b;
    } else {
      assert (a + b)[1..] == a[1..] + b;
      DeliveredConcat(if a[0].OnId? then a[0].value else id, a[1..], b);
    }
  }

  /** The callbacks of a blank line, as messages. */
  lemma DeliveredDispatch(id: bytes, blk: Block)
    ensures var next := if blk.id.Some? then blk.id.value else id;
            && LastId(id, DispatchOut(blk)) == next
            && Delivered(id, DispatchOut(blk)) ==
               if blk.content.Live? && blk.content.values != [] then
                 [Message(if blk.content.event == [] then MESSAGE else blk.content.event,
                          Payload(blk.content.values), next)]
               else []
  {
    var ids := if blk.id.Some? then [OnId(blk.id.value)] else [];
    var events := EventOut(blk);
    DeliveredConcat(id, ids, events);
    assert ids != [] ==> ids[1..] == [];
    assert events != [] ==> events[1..] == [];
  }

  // ---- a server that writes events ----

  /** An event to send; an empty type or no id means no such line. */
  datatype Sent = Sent(event: bytes, id: Option<bytes>, data: bytes)

  /** The parts of a payload between its LFs. */
  function Rows(data: bytes): (rows: seq<bytes>)
    ensures rows != []
    decreases |data|
  {
    var i := IndexOf(data, LF);
    if i == |data| then [data] else [data[..i]] + Rows(data[i + 1..])
  }

  function FieldLine(name: bytes, v: bytes): bytes {
    name + [COLON, SPACE] + v
  }

  function DataLines(rows: seq<bytes>): seq<bytes> {
    if rows == [] then [] else [FieldLine(DATA, rows[0])] + DataLines(rows[1..])
  }

  function EventLines(e: Sent): seq<bytes> {
    (if e.event == [] then [] else [FieldLine(EVENT, e.event)]) +
    (if e.id.None? then [] else [FieldLine(ID, e.id.value)]) +
    DataLines(Rows(e.data)) + [[]]
  }

  function AllLines(es: seq<Sent>): seq<bytes> {
    if es == [] then [] else EventLines(es[0]) + AllLines(es[1..])
  }

  /** What can be written in lines and fits the receiver's buffers. */
  predicate Sendable(caps: Caps, e: Sent) {
    && NoTerminator(e.event) && EventFits(caps, e.event)
    && (e.id.Some? ==> NoTerminator(e.id.value) && IdFits(caps, e.id.value))
    && CR !in e.data && |e.data| < caps.data
  }

  function Expected(e: Sent): seq<Callback> {
    (if e.id.Some? then [OnId(e.id.value)] else []) +
    [OnEvent(if e.event == [] then None else Some(e.event), e.id, e.data)]
  }

  function AllExpected(es: seq<Sent>): seq<Callback> {
    if es == [] then [] else Expected(es[0]) + AllExpected(es[1..])
  }

  /** The list of events as messages: an event without an id carries the id of
      the events before it. */
  function Received(id: bytes, es: seq<Sent>): seq<Message>
    decreases es
  {
    if es == [] then []
    else
      var e := es[0];
      var next := if e.id.Some? then e.id.value else id;
      [Message(if e.event == [] then MESSAGE else e.event, e.data, next)] + Received(next, es[1..])
  }

  lemma {:induction false} PayloadOfRows(data: bytes)
    ensures Payload(Rows(data)) == data
    ensures forall r :: r in Rows(data) ==> LF !in r && forall b :: b in r ==> b in data
    decreases |data|
  {
    var i := IndexOf(data, LF);
    if i < |data| {
      var tail := data[i + 1..];
      PayloadOfRows(tail);
      assert Rows(data)[1..] == Rows(tail);
      assert data == data[..i] + [LF] + tail;
    }
  }

  lemma FieldLineReads(name: bytes, v: bytes)
    requires name != [] && COLON !in name
    ensures var line := FieldLine(name, v);
            line != [] && !IsComment(line) && Name(line) == name && Value(line) == v
  {
    var line := FieldLine(name, v);
    IndexOfIs(line, COLON, |name|);
    assert line[|name| + 1..] == [SPACE] + v;
  }

  lemma OneLine(caps: Caps, blk: Block, line: bytes)
    ensures RunBlock(caps, blk, [line]) == LineBlock(caps, blk, line)
    ensures RunOut(caps, blk, [line]) == LineOut(caps, blk, line)
  {
    assert [line][1..] == [];
  }

  lemma {:induction false} RunDataLines(caps: Caps, values: seq<bytes>, event: bytes, id: Option<bytes>,
                                        rows: seq<bytes>)
    requires |Terminated(values + rows)| <= caps.data
    ensures RunBlock(caps, Block(Live(values, event), id), DataLines(rows)) == Block(Live(values + rows, event), id)
    ensures RunOut(caps, Block(Live(values, event), id), DataLines(rows)) == []
    decreases rows
  {
    if rows == [] {
      assert values + rows == values;
    } else {
      var v := rows[0];
      assert (values + [v]) + rows[1..] == values + rows;
      TerminatedPrefix(values + [v], rows[1..]);
      TerminatedSnoc(values, v);
      FieldLineReads(DATA, v);
      RunDataLines(caps, values + [v], event, id, rows[1..]);
    }
  }

  lemma {:induction false} TerminatedPrefix(a: seq<bytes>, b: seq<bytes>)
    ensures |Terminated(a)| <= |Terminated(a + b)|
  {
    if b == [] {
      assert a + b == a;
    } else {
      assert a + b == (a + b[..|b| - 1]) + [b[|b| - 1]];
      TerminatedSnoc(a + b[..|b| - 1], b[|b| - 1]);
      TerminatedPrefix(a, b[..|b| - 1]);
    }
  }

  /** The head lines of an event: its type and its id. */
  lemma RunHeadLines(caps: Caps, e: Sent)
    requires Sendable(caps, e)
    ensures var head := (if e.event == [] then [] else [FieldLine(EVENT, e.event)]) +
                        (if e.id.None? then [] else [FieldLine(ID, e.id.value)]);
            && RunBlock(caps, EMPTY, head) == Block(Live([], e.event), e.id)
            && RunOut(caps, EMPTY, head) == []
  {
    var types := if e.event == [] then [] else [FieldLine(EVENT, e.event)];
    var ids := if e.id.None? then [] else [FieldLine(ID, e.id.value)];
    var blk := Block(Live([], e.event), None);
    if e.event != [] {
      FieldLineReads(EVENT, e.event);
      OneLine(caps, EMPTY, types[0]);
    }
    if e.id.Some? {
      FieldLineReads(ID, e.id.value);
      OneLine(caps, blk, ids[0]);
    }
    RunConcat(caps, EMPTY, types, ids);
  }

  lemma RunEvent(caps: Caps, e: Sent)
    requires Sendable(caps, e)
    ensures RunBlock(caps, EMPTY, EventLines(e)) == EMPTY
    ensures RunOut(caps, EMPTY, EventLines(e)) == Expected(e)
  {
    var head := (if e.event == [] then [] else [FieldLine(EVENT, e.event)]) +
                (if e.id.None? then [] else [FieldLine(ID, e.id.value)]);
    var rows := Rows(e.data);
    var blk := Block(Live(rows, e.event), e.id);
    RunHeadLines(caps, e);
    PayloadOfRows(e.data);
    TerminatedIsPayload(rows);
    hide RunBlock, RunOut, Rows, Terminated, FieldLine, DataLines, LineBlock, LineOut, Sendable, Payload;
    assert [] + rows == rows;
    RunDataLines(caps, [], e.event, e.id, rows);
    RunConcat(caps, EMPTY, head, DataLines(rows));
    RunSnoc(caps, EMPTY, head + DataLines(rows), []);
    BlankLine(caps, blk);
    ExpectedIsDispatched(e, blk);
    hide Expected, DispatchOut;
  }

  lemma ExpectedIsDispatched(e: Sent, blk: Block)
    requires blk.content.Live? && blk.content.values != [] && Payload(blk.content.values) == e.data
    requires blk.content.event == e.event && blk.id == e.id
    ensures DispatchOut(blk) == Expected(e)
  {
  }

  lemma {:induction false} RunEvents(caps: Caps, es: seq<Sent>)
    requires forall e :: e in es ==> Sendable(caps, e)
    ensures RunBlock(caps, EMPTY, AllLines(es)) == EMPTY
    ensures RunOut(caps, EMPTY, AllLines(es)) == AllExpected(es)
  {
    if es != [] {
      RunEvent(caps, es[0]);
      RunEvents(caps, es[1..]);
      RunConcat(caps, EMPTY, EventLines(es[0]), AllLines(es[1..]));
    }
  }

  lemma {:induction false} DeliveredExpected(id: bytes, es: seq<Sent>)
    ensures Delivered(id, AllExpected(es)) == Received(id, es)
    decreases es
  {
    if es != [] {
      var e := es[0];
      var blk := Block(Live(Rows(e.data), e.event), e.id);
      PayloadOfRows(e.data);
      assert Expected(e) == DispatchOut(blk);
      DeliveredDispatch(id, blk);
      DeliveredConcat(id, Expected(e), AllExpected(es[1..]));
      DeliveredExpected(if e.id.Some? then e.id.value else id, es[1..]);
    }
  }

  lemma FieldLineHasNoTerminator(name: bytes, v: bytes)
    requires NoTerminator(name) && NoTerminator(v)
    ensures NoTerminator(FieldLine(name, v))
  {
    assert forall x :: x in FieldLine(name, v) ==> x in name || x == COLON || x == SPACE || x in v;
  }

  lemma {:induction false} DataLinesHaveNoTerminator(rows: seq<bytes>)
    requires forall r :: r in rows ==> NoTerminator(r)
    ensures forall l :: l in DataLines(rows) ==> NoTerminator(l)
  {
    if rows != [] {
      DataLinesHaveNoTerminator(rows[1..]);
      assert rows[0] in rows;
      FieldLineHasNoTerminator(DATA, rows[0]);
    }
  }

  lemma EventLinesHaveNoTerminator(caps: Caps, e: Sent)
    requires Sendable(caps, e)
    ensures forall l :: l in EventLines(e) ==> NoTerminator(l)
  {
    PayloadOfRows(e.data);
    forall r | r in Rows(e.data) ensures NoTerminator(r) {
      assert CR in r ==> CR in e.data;
    }
    DataLinesHaveNoTerminator(Rows(e.data));
    FieldLineHasNoTerminator(EVENT, e.event);
    if e.id.Some? {
      FieldLineHasNoTerminator(ID, e.id.value);
    }
    forall l | l in EventLines(e) ensures NoTerminator(l) {
      assert || l == [] || l in DataLines(Rows(e.data))
             || l == FieldLine(EVENT, e.event) || (e.id.Some? && l == FieldLine(ID, e.id.value));
    }
  }

  lemma {:induction false} LinesHaveNoTerminator(caps: Caps, es: seq<Sent>)
    requires forall e :: e in es ==> Sendable(caps, e)
    ensures forall l :: l in AllLines(es) ==> NoTerminator(l)
  {
    if es != [] {
      EventLinesHaveNoTerminator(caps, es[0]);
      LinesHaveNoTerminator(caps, es[1..]);
    }
  }

  /** Every line written starts with a letter, so no stream starts like a byte
      order mark by accident. */
  lemma NoBom(es: seq<Sent>, terms: seq<Terminator>)
    requires |terms| == |AllLines(es)|
    ensures StripBom(Render(AllLines(es), terms)) == Render(AllLines(es), terms)
  {
    if es != [] {
      var lines := AllLines(es);
      assert lines[0] == EventLines(es[0])[0];
      assert lines[0] != [] && lines[0][0] != 0xEF by {
        assert DataLines(Rows(es[0].data)) != [];
      }
      assert Render(lines, terms)[0] == lines[0][0];
    }
  }

  /** The round trip, for every list of events, every choice of terminators that
      merges no two of them, with or without a byte order mark. */
  lemma RoundTrip(caps: Caps, es: seq<Sent>, terms: seq<Terminator>, bom: bool, id: bytes)
    requires forall e :: e in es ==> Sendable(caps, e)
    requires |terms| == |AllLines(es)| && Unmerged(AllLines(es), terms)
    ensures var stream := (if bom then BOM else []) + Render(AllLines(es), terms);
            && StreamTrace(caps, stream) == AllExpected(es)
            && Delivered(id, StreamTrace(caps, stream)) == Received(id, es)
  {
    var body := Render(AllLines(es), terms);
    var stream := (if bom then BOM else []) + body;
    NoBom(es, terms);
    assert StripBom(stream) == body by {
      assert bom ==> stream[..3] == BOM && stream[3..] == body;
      assert !bom ==> stream == body;
    }
    LinesHaveNoTerminator(caps, es);
    SplitOfRender(AllLines(es), terms, []);
    assert body + [] == body;
    RunEvents(caps, es);
    BlankLine(caps, EMPTY);
    DeliveredExpected(id, es);
  }

  /** A retry line for any number is read back, cut off at 2^32 - 1. */
  lemma RetryRoundTrip(caps: Caps, blk: Block, n: nat)
    ensures LineOut(caps, blk, FieldLine(RETRY, Digits(n))) == [OnRetry(Min(n, UINT32_MAX))]
    ensures LineBlock(caps, blk, FieldLine(RETRY, Digits(n))) == blk
  {
    FieldLineReads(RETRY, Digits(n));
    DigitsRead(n);
  }
}
