/** The stream format spelled in byte values: what the parser calls back for streams
    written out byte by byte, with none of the names that its code shares with the
    line-oriented reading. */
module Wire {
  import opened Bytes
  import opened Lines
  import opened StreamSpec
  import opened StreamLemmas
  import opened StreamTheorems
  import opened Messages

  // ---- spelling ----

  /** A line ending: LF, CR or CRLF. */
  function Ending(k: nat): bytes {
    if k == 0 then [10] else if k == 1 then [13] else [13, 10]
  }

  /** The ending of a line and that of the blank line after it do not make one CRLF. */
  predicate Apart(k: nat, l: nat) {
    !(k == 1 && l == 0)
  }

  /** One line of text. */
  predicate OneLiner(v: bytes) {
    10 !in v && 13 !in v
  }

  function DataBytes(v: bytes): bytes { // data: v
    [100, 97, 116, 97, 58, 32] + v
  }

  function TypeBytes(v: bytes): bytes { // event: v
    [101, 118, 101, 110, 116, 58, 32] + v
  }

  function IdBytes(v: bytes): bytes { // id: v
    [105, 100, 58, 32] + v
  }

  function RetryBytes(v: bytes): bytes { // retry: v
    [114, 101, 116, 114, 121, 58, 32] + v
  }

  predicate Digital(v: bytes) {
    forall n :: 0 <= n < |v| ==> 48 <= v[n] <= 57
  }

  /** The number that decimal digits stand for, the first one counting most. */
  function Number(digits: bytes): nat
    requires Digital(digits)
  {
    if digits == [] then 0 else (digits[0] as int - 48) * TenTo(|digits| - 1) + Number(digits[1..])
  }

  function TenTo(n: nat): (p: nat)
    ensures p >= 1
  {
    if n == 0 then 1 else 10 * TenTo(n - 1)
  }

  lemma {:induction false} NumberSnoc(digits: bytes, d: byte)
    requires Digital(digits) && 48 <= d <= 57
    ensures Digital(digits + [d]) && Number(digits + [d]) == Number(digits) * 10 + (d as int - 48)
    decreases |digits|
  {
    var all := digits + [d];
    if digits == [] {
      assert all[1..] == [];
      assert TenTo(0) == 1;
    } else {
      assert all[1..] == digits[1..] + [d] && all[0] == digits[0];
      NumberSnoc(digits[1..], d);
      TimesTen(digits[0] as int - 48, |digits|);
    }
  }

  lemma TimesTen(h: int, n: nat)
    requires n > 0
    ensures h * TenTo(n) == (h * TenTo(n - 1)) * 10
  {
    var p := TenTo(n - 1);
    assert TenTo(n) == 10 * p;
    hide TenTo;
    assert h * (10 * p) == (h * p) * 10;
  }

  lemma {:induction false} NumberIsDecimal(v: bytes)
    requires Digital(v)
    ensures forall n :: 0 <= n < |v| ==> IsDigit(v[n])
    ensures Decimal(v) == Number(v)
  {
    if v != [] {
      var init, d := v[..|v| - 1], v[|v| - 1];
      assert v == init + [d];
      NumberIsDecimal(init);
      NumberSnoc(init, d);
    }
  }

  // ---- from bytes to lines ----

  function TerminatorFor(k: nat): Terminator {
    if k == 0 then Lf else if k == 1 then Cr else CrLf
  }

  lemma EndingIs(k: nat)
    ensures TerminatorBytes(TerminatorFor(k)) == Ending(k)
  {
  }

  /** Lines, as bytes: each with its ending. */
  function Written(lines: seq<bytes>, ks: seq<nat>): bytes
    requires |lines| == |ks|
  {
    if lines == [] then [] else lines[0] + Ending(ks[0]) + Written(lines[1..], ks[1..])
  }

  function TerminatorsFor(ks: seq<nat>): (ts: seq<Terminator>)
    ensures |ts| == |ks| && forall i :: 0 <= i < |ks| ==> ts[i] == TerminatorFor(ks[i])
  {
    if ks == [] then [] else [TerminatorFor(ks[0])] + TerminatorsFor(ks[1..])
  }

  lemma {:induction false} WrittenIsRendered(lines: seq<bytes>, ks: seq<nat>)
    requires |lines| == |ks|
    ensures Written(lines, ks) == Render(lines, TerminatorsFor(ks))
    decreases |lines|
  {
    if lines != [] {
      EndingIs(ks[0]);
      WrittenIsRendered(lines[1..], ks[1..]);
      assert TerminatorsFor(ks)[1..] == TerminatorsFor(ks[1..]);
    }
  }

  /** A stream of complete lines is read line by line. */
  lemma TraceOfLines(caps: Caps, lines: seq<bytes>, ks: seq<nat>)
    requires |lines| == |ks| > 0 && forall l :: l in lines ==> OneLiner(l)
    requires lines[0] != [] && lines[0][0] != 239
    requires forall i :: 0 < i < |lines| && lines[i] == [] ==> Apart(ks[i - 1], ks[i])
    ensures StreamTrace(caps, Written(lines, ks)) == RunOut(caps, EMPTY, lines)
  {
    var ts, s := TerminatorsFor(ks), Written(lines, ks);
    WrittenIsRendered(lines, ks);
    assert Unmerged(lines, ts) by {
      forall i | 0 <= i < |lines| - 1 ensures !(ts[i] == Cr && lines[i + 1] == [] && ts[i + 1] == Lf) {
        assert ts[i] == TerminatorFor(ks[i]) && ts[i + 1] == TerminatorFor(ks[i + 1]);
        assert lines[i + 1] == [] ==> Apart(ks[i], ks[i + 1]);
      }
    }
    SplitOfRender(lines, ts, []);
    assert Render(lines, ts) + [] == s;
    assert s[0] == lines[0][0];
    assert StripBom(s) == s;
    hide SplitLines, StripBom, RunOut, RunBlock, Render, Written;
    NothingUnfinished(caps, RunBlock(caps, EMPTY, lines));
  }

  lemma NothingUnfinished(caps: Caps, blk: Block)
    ensures PartialOut(caps, blk, []) == []
  {
  }

  // ---- what each spelled line is ----

  lemma DataSpelled(v: bytes)
    ensures var l := DataBytes(v);
            l != [] && l[0] != 239 && !IsComment(l) && FieldOf(Name(l)) == DataField && Value(l) == v
    ensures OneLiner(v) ==> OneLiner(DataBytes(v))
  {
    var l := DataBytes(v);
    IndexOfIs(l, COLON, 4);
    assert l[..4] == [100, 97, 116, 97] && l[5..] == [32] + v;
  }

  lemma TypeSpelled(v: bytes)
    ensures var l := TypeBytes(v);
            l != [] && l[0] != 239 && !IsComment(l) && FieldOf(Name(l)) == EventField && Value(l) == v
    ensures OneLiner(v) ==> OneLiner(TypeBytes(v))
  {
    var l := TypeBytes(v);
    IndexOfIs(l, COLON, 5);
    assert l[..5] == [101, 118, 101, 110, 116] && l[6..] == [32] + v;
  }

  lemma IdSpelled(v: bytes)
    ensures var l := IdBytes(v);
            l != [] && l[0] != 239 && !IsComment(l) && FieldOf(Name(l)) == IdField && Value(l) == v
    ensures OneLiner(v) ==> OneLiner(IdBytes(v))
  {
    var l := IdBytes(v);
    IndexOfIs(l, COLON, 2);
    assert l[..2] == [105, 100] && l[3..] == [32] + v;
  }

  lemma RetrySpelled(v: bytes)
    ensures var l := RetryBytes(v);
            l != [] && l[0] != 239 && !IsComment(l) && FieldOf(Name(l)) == RetryField && Value(l) == v
    ensures OneLiner(v) ==> OneLiner(RetryBytes(v))
  {
    var l := RetryBytes(v);
    IndexOfIs(l, COLON, 5);
    assert l[..5] == [114, 101, 116, 114, 121] && l[6..] == [32] + v;
  }

  // ---- what a data line and a blank line cause ----

  /** A data line, when nothing has been collected yet but a type and an id. */
  lemma DataThenBlank(caps: Caps, event: bytes, id: Option<bytes>, v: bytes)
    requires |v| < caps.data
    ensures RunOut(caps, Block(Live([], event), id), [DataBytes(v), []]) ==
            (if id.Some? then [OnId(id.value)] else []) +
            [OnEvent(if event == [] then None else Some(event), id, v)]
  {
    var blk := Block(Live([], event), id);
    var data: seq<bytes> := [v];
    DataSpelled(v);
    assert Terminated([]) == [];
    assert Payload(data) == v;
    hide FieldOf, Name, Value, IsComment, Terminated, Payload, DataBytes;
    TwoLines(caps, blk, DataBytes(v), []);
    assert [] + data == data;
  }

  lemma TwoLines(caps: Caps, blk: Block, a: bytes, b: bytes)
    ensures RunOut(caps, blk, [a, b]) == LineOut(caps, blk, a) + LineOut(caps, LineBlock(caps, blk, a), b)
  {
    var next := LineBlock(caps, blk, a);
    assert [a, b][1..] == [b] && [b][1..] == [];
    assert RunOut(caps, next, [b]) == LineOut(caps, next, b) + [];
  }

  lemma OneBefore(caps: Caps, line: bytes, rest: seq<bytes>)
    ensures RunOut(caps, EMPTY, [line] + rest) ==
            LineOut(caps, EMPTY, line) + RunOut(caps, LineBlock(caps, EMPTY, line), rest)
  {
    assert ([line] + rest)[1..] == rest;
  }

  /** The bytes of two lines, and of three. */
  lemma WrittenTwo(a: bytes, b: bytes, j: nat, k: nat)
    ensures Written([a, b], [j, k]) == a + Ending(j) + (b + Ending(k))
  {
    assert [a, b][1..] == [b] && [j, k][1..] == [k] && [b][1..] == [] && [k][1..] == [];
    assert Written([b], [k]) == b + Ending(k) + [];
  }

  lemma WrittenThree(a: bytes, b: bytes, c: bytes, i: nat, j: nat, k: nat)
    ensures Written([a, b, c], [i, j, k]) == a + Ending(i) + (b + Ending(j) + (c + Ending(k)))
  {
    assert [a, b, c][1..] == [b, c] && [i, j, k][1..] == [j, k];
    WrittenTwo(b, c, j, k);
  }

  // ---- the streams ----

  /** `data: v` and a blank line: one event without a type, with this payload. */
  lemma DataStream(caps: Caps, v: bytes, k: nat, l: nat)
    requires OneLiner(v) && |v| < caps.data && Apart(k, l)
    ensures StreamTrace(caps, [100, 97, 116, 97, 58, 32] + v + Ending(k) + Ending(l)) == [OnEvent(None, None, v)]
  {
    DataSpelled(v);
    TraceOfLines(caps, [DataBytes(v), []], [k, l]);
    WrittenTwo(DataBytes(v), [], k, l);
    assert [] + Ending(l) == Ending(l);
    DataThenBlank(caps, [], None, v);
    hide StreamTrace, RunOut, Written;
    assert [] + [OnEvent(None, None, v)] == [OnEvent(None, None, v)];
  }

  /** A line before the data line. */
  lemma LineThenData(caps: Caps, line: bytes, v: bytes, i: nat, j: nat, k: nat)
    requires OneLiner(line) && line != [] && line[0] != 239 && OneLiner(v) && Apart(j, k)
    ensures StreamTrace(caps, line + Ending(i) + ([100, 97, 116, 97, 58, 32] + v) + Ending(j) + Ending(k)) ==
            LineOut(caps, EMPTY, line) + RunOut(caps, LineBlock(caps, EMPTY, line), [DataBytes(v), []])
  {
    var lines := [line, DataBytes(v), []];
    DataSpelled(v);
    TraceOfLines(caps, lines, [i, j, k]);
    WrittenThree(line, DataBytes(v), [], i, j, k);
    hide StreamTrace, RunOut, LineOut, LineBlock, Written;
    assert lines == [line] + [DataBytes(v), []];
    OneBefore(caps, line, [DataBytes(v), []]);
    Regroup(line, Ending(i), DataBytes(v), Ending(j), Ending(k));
  }

  lemma Regroup(a: bytes, b: bytes, c: bytes, d: bytes, e: bytes)
    ensures a + b + (c + d + ([] + e)) == a + b + c + d + e
  {
  }

  lemma TypeLine(caps: Caps, t: bytes)
    requires OneLiner(t) && t != []
    ensures var l, good := TypeBytes(t), 0 !in t && |t| < caps.event;
            && OneLiner(l) && l != [] && l[0] != 239
            && LineBlock(caps, EMPTY, l) == Block(if good then Live([], t) else Discarded, None)
            && LineOut(caps, EMPTY, l) == if good then [] else [OnError(EventCause(caps, t))]
  {
    TypeSpelled(t);
    hide FieldOf, Name, Value, IsComment, EventCause;
  }

  /** `event: t` before it gives the event that type. */
  lemma TypeStream(caps: Caps, t: bytes, v: bytes, i: nat, j: nat, k: nat)
    requires OneLiner(t) && 0 !in t && 0 < |t| < caps.event
    requires OneLiner(v) && |v| < caps.data && Apart(j, k)
    ensures StreamTrace(caps, [101, 118, 101, 110, 116, 58, 32] + t + Ending(i) +
                              ([100, 97, 116, 97, 58, 32] + v) + Ending(j) + Ending(k)) ==
            [OnEvent(Some(t), None, v)]
  {
    hide StreamTrace, RunOut, LineOut, LineBlock, OneLiner;
    TypeLine(caps, t);
    LineThenData(caps, TypeBytes(t), v, i, j, k);
    DataThenBlank(caps, t, None, v);
    assert [] + ([] + [OnEvent(Some(t), None, v)]) == [OnEvent(Some(t), None, v)];
  }

  lemma IdLine(caps: Caps, d: bytes)
    requires OneLiner(d)
    ensures var l, good := IdBytes(d), 0 !in d && |d| < caps.id;
            && OneLiner(l) && l != [] && l[0] != 239
            && LineBlock(caps, EMPTY, l) == Block(Live([], []), if good then Some(d) else None)
            && LineOut(caps, EMPTY, l) == if good then [] else [OnError(IdInvalid)]
  {
    IdSpelled(d);
    hide FieldOf, Name, Value, IsComment;
  }

  /** `id: d` before it is reported, and again with the event. */
  lemma IdStream(caps: Caps, d: bytes, v: bytes, i: nat, j: nat, k: nat)
    requires OneLiner(d) && 0 !in d && |d| < caps.id
    requires OneLiner(v) && |v| < caps.data && Apart(j, k)
    ensures StreamTrace(caps, [105, 100, 58, 32] + d + Ending(i) +
                              ([100, 97, 116, 97, 58, 32] + v) + Ending(j) + Ending(k)) ==
            [OnId(d), OnEvent(None, Some(d), v)]
  {
    hide StreamTrace, RunOut, LineOut, LineBlock, OneLiner;
    IdLine(caps, d);
    LineThenData(caps, IdBytes(d), v, i, j, k);
    DataThenBlank(caps, [], Some(d), v);
    assert [] + ([OnId(d)] + [OnEvent(None, Some(d), v)]) == [OnId(d), OnEvent(None, Some(d), v)];
  }

  /** `retry: r` with digits is the number, at most 2^32 - 1; with anything else, or
      with nothing, it is one error. */
  lemma RetryStream(caps: Caps, r: bytes, v: bytes, i: nat, j: nat, k: nat)
    requires OneLiner(r) && OneLiner(v) && |v| < caps.data && Apart(j, k)
    ensures StreamTrace(caps, [114, 101, 116, 114, 121, 58, 32] + r + Ending(i) +
                              ([100, 97, 116, 97, 58, 32] + v) + Ending(j) + Ending(k)) ==
            [if r != [] && Digital(r) then OnRetry(if Number(r) <= 4294967295 then Number(r) else 4294967295)
             else OnError(InvalidRetry),
             OnEvent(None, None, v)]
  {
    hide Number, Digital, RunOut, LineOut, LineBlock, StreamTrace, OneLiner;
    RetrySpelled(r);
    LineThenData(caps, RetryBytes(r), v, i, j, k);
    DataThenBlank(caps, [], None, v);
    RetryLine(caps, r);
    hide *;
    NothingBefore(OnEvent(None, None, v));
  }

  lemma NothingBefore(cb: Callback)
    ensures [] + [cb] == [cb]
  {
  }

  lemma RetryLine(caps: Caps, r: bytes)
    ensures LineBlock(caps, EMPTY, RetryBytes(r)) == EMPTY
    ensures LineOut(caps, EMPTY, RetryBytes(r)) ==
            [if r != [] && Digital(r) then OnRetry(if Number(r) <= 4294967295 then Number(r) else 4294967295)
             else OnError(InvalidRetry)]
  {
    RetrySpelled(r);
    if Digital(r) {
      NumberIsDecimal(r);
    }
    assert Digital(r) <==> forall n :: 0 <= n < |r| ==> IsDigit(r[n]);
    hide FieldOf, Name, Value, IsComment, Number, Decimal;
  }

  /** The space after the colon may be missing. */
  lemma UnpaddedStream(caps: Caps, v: bytes, k: nat, l: nat)
    requires OneLiner(v) && |v| < caps.data && Apart(k, l) && (v == [] || v[0] != 32)
    ensures StreamTrace(caps, [100, 97, 116, 97, 58] + v + Ending(k) + Ending(l)) == [OnEvent(None, None, v)]
  {
    var line := [100, 97, 116, 97, 58] + v;
    IndexOfIs(line, COLON, 4);
    assert line[..4] == [100, 97, 116, 97] && line[5..] == v;
    TraceOfLines(caps, [line, []], [k, l]);
    WrittenTwo(line, [], k, l);
    assert [] + Ending(l) == Ending(l);
    DataSpelled(v);
    DataThenBlank(caps, [], None, v);
    hide StreamTrace, Written, FieldOf, RunOut;
    TwoLines(caps, EMPTY, line, []);
    TwoLines(caps, EMPTY, DataBytes(v), []);
    assert EMPTY == Block(Live([], []), None);
    assert [] + [OnEvent(None, None, v)] == [OnEvent(None, None, v)];
  }

  /** Two data lines are joined by an LF. */
  lemma TwoDataStream(caps: Caps, u: bytes, v: bytes, i: nat, j: nat, k: nat)
    requires OneLiner(u) && OneLiner(v) && |u| + 1 + |v| < caps.data && Apart(j, k)
    ensures StreamTrace(caps, [100, 97, 116, 97, 58, 32] + u + Ending(i) +
                              ([100, 97, 116, 97, 58, 32] + v) + Ending(j) + Ending(k)) ==
            [OnEvent(None, None, u + [10] + v)]
  {
    hide StreamTrace, RunOut, LineOut, LineBlock, OneLiner;
    DataSpelled(u);
    LineThenData(caps, DataBytes(u), v, i, j, k);
    FirstData(caps, u);
    SecondData(caps, u, v);
    NothingBefore(OnEvent(None, None, u + [10] + v));
  }

  lemma FirstData(caps: Caps, u: bytes)
    requires |u| < caps.data
    ensures LineBlock(caps, EMPTY, DataBytes(u)) == Block(Live([u], []), None)
    ensures LineOut(caps, EMPTY, DataBytes(u)) == []
  {
    DataSpelled(u);
    assert |Terminated([])| == 0;
    hide FieldOf, Name, Value, IsComment, Terminated, DataBytes;
    assert [] + [u] == [u];
  }

  lemma SecondData(caps: Caps, u: bytes, v: bytes)
    requires |u| + 1 + |v| < caps.data
    ensures RunOut(caps, Block(Live([u], []), None), [DataBytes(v), []]) == [OnEvent(None, None, u + [10] + v)]
  {
    var one, both := [u], [u, v];
    DataSpelled(v);
    assert one[..0] == [] && both[1..] == [v];
    assert Terminated(one) == [] + u + [LF];
    assert Payload(both) == u + [10] + v;
    hide FieldOf, Name, Value, IsComment, Terminated, Payload, DataBytes, RunOut;
    TwoLines(caps, Block(Live(one, []), None), DataBytes(v), []);
    assert one + [v] == both;
  }

  /** A payload without room is one error and no event. */
  lemma LargeDataStream(caps: Caps, v: bytes, k: nat, l: nat)
    requires OneLiner(v) && |v| >= caps.data && Apart(k, l)
    ensures StreamTrace(caps, [100, 97, 116, 97, 58, 32] + v + Ending(k) + Ending(l)) == [OnError(DataTooLarge)]
  {
    DataSpelled(v);
    TraceOfLines(caps, [DataBytes(v), []], [k, l]);
    WrittenTwo(DataBytes(v), [], k, l);
    assert [] + Ending(l) == Ending(l);
    assert |Terminated([])| == 0;
    hide StreamTrace, Written, FieldOf, Name, Value, IsComment, Terminated, RunOut;
    TwoLines(caps, EMPTY, DataBytes(v), []);
    assert LineOut(caps, EMPTY, DataBytes(v)) == [OnError(DataTooLarge)];
    assert [OnError(DataTooLarge)] + ([] + []) == [OnError(DataTooLarge)];
  }

  /** A type with a NUL among the bytes that there is room to look at, or else without
      room, takes the whole event with it. */
  lemma BadTypeStream(caps: Caps, t: bytes, v: bytes, i: nat, j: nat, k: nat)
    requires OneLiner(t) && t != [] && (0 in t || |t| >= caps.event) && caps.event > 0
    requires OneLiner(v) && Apart(j, k)
    ensures StreamTrace(caps, [101, 118, 101, 110, 116, 58, 32] + t + Ending(i) +
                              ([100, 97, 116, 97, 58, 32] + v) + Ending(j) + Ending(k)) ==
            [OnError(if 0 in t[..if |t| < caps.event then |t| else caps.event] then EventTypeInvalid
                     else EventTypeTooLarge)]
  {
    var cause := EventCause(caps, t);
    hide StreamTrace, RunOut, LineOut, LineBlock, OneLiner;
    TypeLine(caps, t);
    LineThenData(caps, TypeBytes(t), v, i, j, k);
    DataDiscarded(caps, v);
    assert [OnError(cause)] + [] == [OnError(cause)];
  }

  lemma DataDiscarded(caps: Caps, v: bytes)
    ensures RunOut(caps, Block(Discarded, None), [DataBytes(v), []]) == []
  {
    DataSpelled(v);
    hide FieldOf, Name, Value, IsComment, RunOut;
    TwoLines(caps, Block(Discarded, None), DataBytes(v), []);
  }

  /** An id with a NUL or without room is one error, and the event comes without it. */
  lemma BadIdStream(caps: Caps, d: bytes, v: bytes, i: nat, j: nat, k: nat)
    requires OneLiner(d) && (0 in d || |d| >= caps.id)
    requires OneLiner(v) && |v| < caps.data && Apart(j, k)
    ensures StreamTrace(caps, [105, 100, 58, 32] + d + Ending(i) +
                              ([100, 97, 116, 97, 58, 32] + v) + Ending(j) + Ending(k)) ==
            [OnError(IdInvalid), OnEvent(None, None, v)]
  {
    hide StreamTrace, RunOut, LineOut, LineBlock, OneLiner;
    IdLine(caps, d);
    LineThenData(caps, IdBytes(d), v, i, j, k);
    DataThenBlank(caps, [], None, v);
    assert [OnError(IdInvalid)] + ([] + [OnEvent(None, None, v)]) == [OnError(IdInvalid), OnEvent(None, None, v)];
  }

  /** A line of none of the four names, and no comment, is one error. */
  lemma UnknownStream(caps: Caps, name: bytes, tail: bytes, k: nat)
    requires name != [] && name[0] != 239 && 58 !in name && OneLiner(name) && OneLiner(tail)
    requires tail == [] || tail[0] == 58
    requires name != [100, 97, 116, 97] && name != [101, 118, 101, 110, 116]
    requires name != [105, 100] && name != [114, 101, 116, 114, 121]
    ensures StreamTrace(caps, name + tail + Ending(k)) == [OnError(UnknownField)]
  {
    var line := name + tail;
    IndexOfIs(line, COLON, |name|);
    assert Name(line) == name && line[0] == name[0] && name[0] in name;
    OneLineStream(caps, line, k);
  }

  /** A line that starts with a colon is nothing. */
  lemma CommentStream(caps: Caps, tail: bytes, k: nat)
    requires OneLiner(tail)
    ensures StreamTrace(caps, [58] + tail + Ending(k)) == []
  {
    OneLineStream(caps, [58] + tail, k);
  }

  lemma OneLineStream(caps: Caps, line: bytes, k: nat)
    requires OneLiner(line) && line != [] && line[0] != 239
    ensures StreamTrace(caps, line + Ending(k)) == LineOut(caps, EMPTY, line)
  {
    TraceOfLines(caps, [line], [k]);
    OneLine(caps, EMPTY, line);
    WrittenOne(line, k);
    hide *;
  }

  lemma WrittenOne(line: bytes, k: nat)
    ensures Written([line], [k]) == line + Ending(k)
  {
    assert [line][1..] == [] && [k][1..] == [];
    assert Written([line], [k]) == line + Ending(k) + [];
  }

  /** The byte order mark, spelled, is not part of a stream. */
  lemma MarkStream(caps: Caps, s: bytes)
    requires s == [] || s[0] != 239
    ensures StreamTrace(caps, [239, 187, 191] + s) == StreamTrace(caps, s)
  {
    var marked := [239, 187, 191] + s;
    assert marked[..3] == [239, 187, 191] && marked[3..] == s;
    hide BodyTrace;
  }

  /** Without a colon and without an ending: the sixth byte of a name is too many. */
  lemma LongNameStream(caps: Caps, name: bytes)
    requires name != [] && name[0] != 239 && 58 !in name && OneLiner(name)
    ensures StreamTrace(caps, name) == if |name| >= 6 then [OnError(UnknownField)] else []
  {
    SplitNone(name);
    IndexOfIs(name, COLON, |name|);
    assert StripBom(name) == name;
    assert name[0] in name;
  }

  /** The message that reaches the user is of type `message` where none was sent. */
  lemma UntypedMessage(caps: Caps, id: bytes, v: bytes, k: nat, l: nat)
    requires OneLiner(v) && |v| < caps.data && Apart(k, l)
    ensures Delivered(id, StreamTrace(caps, [100, 97, 116, 97, 58, 32] + v + Ending(k) + Ending(l))) ==
            [Message([109, 101, 115, 115, 97, 103, 101], v, id)]
  {
    DataStream(caps, v, k, l);
    hide StreamTrace;
    var e := OnEvent(None, None, v);
    assert [e][1..] == [];
  }
}
