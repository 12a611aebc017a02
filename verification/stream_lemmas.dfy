/** Facts about the line-oriented reading that the parser's proof rests on. */
module StreamLemmas {
  import opened Bytes
  import opened StreamSpec

  lemma TerminatedSnoc(values: seq<bytes>, v: bytes)
    ensures Terminated(values + [v]) == Terminated(values) + v + [LF]
  {
    assert (values + [v])[..|values|] == values;
  }

  /** The data buffer holds the payload and one LF too many. */
  lemma {:induction false} TerminatedIsPayload(values: seq<bytes>)
    requires values != []
    ensures Terminated(values) == Payload(values) + [LF]
  {
    if |values| == 1 {
      assert values[..0] == [];
    } else {
      TerminatedCons(values);
      TerminatedIsPayload(values[1..]);
    }
  }

  lemma {:induction false} TerminatedCons(values: seq<bytes>)
    requires values != []
    ensures Terminated(values) == values[0] + [LF] + Terminated(values[1..])
  {
    var n := |values|;
    if n == 1 {
      assert values[..0] == [];
    } else {
      TerminatedCons(values[..n - 1]);
      assert values[..n - 1][1..] == values[1..][..n - 2];
      ConcatAssociates(values[0] + [LF], Terminated(values[1..][..n - 2]), values[n - 1]);
      ConcatAssociates(values[0] + [LF], Terminated(values[1..][..n - 2]) + values[n - 1], [LF]);
    }
  }

  /** One more digit, with the test the parser uses to stay within 32 bits. */
  lemma SaturatedSnoc(v: bytes, b: byte)
    requires forall i :: 0 <= i < |v| ==> IsDigit(v[i])
    requires IsDigit(b)
    ensures forall i :: 0 <= i < |v + [b]| ==> IsDigit((v + [b])[i])
    ensures Saturated(v + [b]) ==
            if Saturated(v) > (UINT32_MAX - DigitValue(b)) / 10 then UINT32_MAX
            else Saturated(v) * 10 + DigitValue(b)
  {
    assert (v + [b])[..|v|] == v;
  }

  /** The decimal digits of a number. */
  function Digits(n: nat): bytes {
    if n < 10 then [48 + n] else Digits(n / 10) + [48 + n % 10]
  }

  /** Reading undoes writing. */
  lemma {:induction false} DigitsRead(n: nat)
    ensures RetryFits(Digits(n)) && Decimal(Digits(n)) == n
  {
    if n >= 10 {
      DigitsRead(n / 10);
      var d := Digits(n / 10);
      assert Digits(n)[..|d|] == d;
    }
  }

  /** The first cause of a bad event type does not change as more bytes come. */
  lemma EventCauseSnoc(caps: Caps, v: bytes, b: byte)
    ensures !EventFits(caps, v) ==>
              !EventFits(caps, v + [b]) && EventCause(caps, v + [b]) == EventCause(caps, v)
    ensures EventFits(caps, v) ==>
              && EventFits(caps, v + [b]) == (b != NUL && |v| + 1 < caps.event)
              && (b == NUL ==> EventCause(caps, v + [b]) == EventTypeInvalid)
              && (b != NUL && |v| + 1 >= caps.event ==> EventCause(caps, v + [b]) == EventTypeTooLarge)
  {
    var w := if caps.event == 0 then 1 else caps.event;
    var v' := v + [b];
    assert forall x :: x in v' <==> x in v || x == b;
    if |v| >= w {
      assert v'[..w] == v[..w];
    } else {
      assert v[..|v|] == v && v'[..|v'|] == v';
    }
  }

  lemma IdFitsSnoc(caps: Caps, v: bytes, b: byte)
    ensures IdFits(caps, v + [b]) == (IdFits(caps, v) && b != NUL && |v| + 1 < caps.id)
  {
    assert forall x :: x in v + [b] <==> x in v || x == b;
  }

  // ---- a line that grows by one byte ----

  lemma NoColonSnoc(part: bytes, b: byte)
    requires !HasColon(part)
    ensures Colon(part + [b]) == |part| + (if b == COLON then 0 else 1)
    ensures b == COLON ==> Name(part + [b]) == part && AfterColon(part + [b]) == []
  {
    IndexOfIs(part + [b], COLON, |part| + (if b == COLON then 0 else 1));
  }

  lemma ColonSnoc(part: bytes, b: byte)
    requires HasColon(part)
    ensures Colon(part + [b]) == Colon(part) && Name(part + [b]) == Name(part)
    ensures AfterColon(part + [b]) == AfterColon(part) + [b]
    ensures Value(part + [b]) == if AfterColon(part) == [] && b == SPACE then [] else Value(part) + [b]
  {
    IndexOfIs(part + [b], COLON, Colon(part));
  }

  lemma CommentStart(caps: Caps, blk: Block)
    ensures Skipped([COLON]) && PartialOut(caps, blk, [COLON]) == PartialOut(caps, blk, []) == []
  {
  }

  lemma SkippedSnoc(caps: Caps, blk: Block, part: bytes, b: byte)
    requires Skipped(part)
    ensures Skipped(part + [b]) && PartialOut(caps, blk, part + [b]) == PartialOut(caps, blk, part)
  {
    if HasColon(part) {
      ColonSnoc(part, b);
    } else {
      NoColonSnoc(part, b);
    }
  }

  lemma ValuedSnoc(caps: Caps, blk: Block, part: bytes, f: Field, b: byte)
    requires Valued(part, f)
    ensures Valued(part + [b], f) && f != NoField
    ensures AfterColon(part) == [] ==> Value(part) == []
    ensures PartialOut(caps, blk, part) == ValueOut(caps, blk, f, Value(part))
    ensures PartialOut(caps, blk, part + [b]) == ValueOut(caps, blk, f, Value(part + [b]))
    ensures AfterColon(part + [b]) == AfterColon(part) + [b]
    ensures Value(part + [b]) == if AfterColon(part) == [] && b == SPACE then [] else Value(part) + [b]
  {
    ColonSnoc(part, b);
  }

  lemma NamingSnoc(caps: Caps, blk: Block, part: bytes, b: byte)
    requires (part == [] && b != COLON) || Naming(part)
    requires Fits(caps, blk) && caps.id >= 1
    ensures PartialOut(caps, blk, part) == [] && |part| <= MAX_NAME
    ensures b != COLON && |part| < MAX_NAME ==> Naming(part + [b]) && PartialOut(caps, blk, part + [b]) == []
    ensures b != COLON && |part| == MAX_NAME ==>
              Skipped(part + [b]) && PartialOut(caps, blk, part + [b]) == [OnError(UnknownField)]
    ensures b == COLON && FieldOf(part) == NoField ==>
              Skipped(part + [b]) && PartialOut(caps, blk, part + [b]) == [OnError(UnknownField)]
    ensures b == COLON && FieldOf(part) != NoField ==>
              && Valued(part + [b], FieldOf(part)) && AfterColon(part + [b]) == []
              && PartialOut(caps, blk, part + [b]) == []
  {
    NoColonSnoc(part, b);
    if part != [] {
      assert (part + [b])[0] == part[0];
    }
  }

  /** A line without a colon is a name with an empty value. */
  lemma NamedLine(caps: Caps, blk: Block, part: bytes)
    requires Naming(part) && Fits(caps, blk) && caps.id >= 1
    ensures LineBlock(caps, blk, part) == FieldBlock(caps, blk, FieldOf(part), [])
    ensures LineOut(caps, blk, part) == FieldOut(caps, blk, FieldOf(part), [])
    ensures PartialOut(caps, blk, part) == [] && |part| <= MAX_NAME
    ensures FieldOf(part) == NoField ==>
              FieldBlock(caps, blk, NoField, []) == blk && FieldOut(caps, blk, NoField, []) == [OnError(UnknownField)]
    ensures ValueOut(caps, blk, FieldOf(part), []) == if FieldOf(part) == NoField then [OnError(UnknownField)] else []
  {
    assert Name(part) == part;
  }

  lemma ValuedLine(caps: Caps, blk: Block, part: bytes, f: Field)
    requires Valued(part, f)
    ensures LineBlock(caps, blk, part) == FieldBlock(caps, blk, f, Value(part))
    ensures LineOut(caps, blk, part) == FieldOut(caps, blk, f, Value(part))
    ensures PartialOut(caps, blk, part) == ValueOut(caps, blk, f, Value(part))
    ensures f != NoField && (AfterColon(part) == [] ==> Value(part) == [])
  {
  }

  lemma BlankLine(caps: Caps, blk: Block)
    ensures LineBlock(caps, blk, []) == EMPTY && LineOut(caps, blk, []) == DispatchOut(blk)
    ensures PartialOut(caps, blk, []) == []
  {
  }

  lemma SkippedLine(caps: Caps, blk: Block, part: bytes)
    requires Skipped(part)
    ensures LineBlock(caps, blk, part) == blk
    ensures LineOut(caps, blk, part) == PartialOut(caps, blk, part)
  {
    if !HasColon(part) {
      assert Name(part) == part;
    }
  }

  // ---- runs ----

  lemma {:induction false} RunConcat(caps: Caps, blk: Block, a: seq<bytes>, b: seq<bytes>)
    ensures RunBlock(caps, blk, a + b) == RunBlock(caps, RunBlock(caps, blk, a), b)
    ensures RunOut(caps, blk, a + b) == RunOut(caps, blk, a) + RunOut(caps, RunBlock(caps, blk, a), b)
    decreases |a|
  {
    if a == [] {
      assert a + b == b;
    } else {
      var next := LineBlock(caps, blk, a[0]);
      assert (a + b)[1..] == a[1..] + b;
      RunConcat(caps, next, a[1..], b);
      ConcatAssociates(LineOut(caps, blk, a[0]), RunOut(caps, next, a[1..]),
                       RunOut(caps, RunBlock(caps, blk, a), b));
    }
  }

  lemma RunSnoc(caps: Caps, blk: Block, lines: seq<bytes>, line: bytes)
    ensures RunBlock(caps, blk, lines + [line]) == LineBlock(caps, RunBlock(caps, blk, lines), line)
    ensures RunOut(caps, blk, lines + [line]) ==
            RunOut(caps, blk, lines) + LineOut(caps, RunBlock(caps, blk, lines), line)
  {
    var now := RunBlock(caps, blk, lines);
    RunConcat(caps, blk, lines, [line]);
    assert [line][1..] == [];
    assert RunOut(caps, now, [line]) == LineOut(caps, now, line);
  }

  lemma EmptyFits(caps: Caps)
    ensures EventFits(caps, [])
  {
  }

  lemma LineFits(caps: Caps, blk: Block, line: bytes)
    requires Fits(caps, blk)
    ensures Fits(caps, LineBlock(caps, blk, line))
  {
    hide FieldOf, EventFits, IdFits, Name, Value, Colon, IsComment;
    assert EventFits(caps, []) by { EmptyFits(caps); }
    if blk.content.Live? {
      TerminatedSnoc(blk.content.values, Value(line));
    }
  }
}
