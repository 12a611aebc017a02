/** Every callback of every stream stays within the buffers, and every id it
    reports can be sent in a header. */
module StreamLimits {
  import opened Bytes
  import opened Lines
  import opened StreamSpec
  import opened StreamLemmas
  import opened Run

  ghost predicate CleanBlock(caps: Caps, blk: Block) {
    Fits(caps, blk) && (blk.id.Some? ==> NoTerminator(blk.id.value))
  }

  ghost predicate AllWellFormed(caps: Caps, cbs: seq<Callback>) {
    forall cb :: cb in cbs ==> WellFormed(caps, cb)
  }

  lemma ValueHasNoTerminator(line: bytes)
    requires NoTerminator(line)
    ensures NoTerminator(Value(line))
  {
    assert forall b :: b in Value(line) ==> b in line;
  }

  lemma DispatchWellFormed(caps: Caps, blk: Block)
    requires CleanBlock(caps, blk)
    ensures AllWellFormed(caps, DispatchOut(blk))
  {
    if blk.content.Live? && blk.content.values != [] {
      TerminatedIsPayload(blk.content.values);
    }
  }

  lemma LineWellFormed(caps: Caps, blk: Block, line: bytes)
    requires CleanBlock(caps, blk) && NoTerminator(line)
    ensures CleanBlock(caps, LineBlock(caps, blk, line))
    ensures AllWellFormed(caps, LineOut(caps, blk, line))
  {
    if line == [] {
      DispatchWellFormed(caps, blk);
    } else {
      LineFits(caps, blk, line);
      hide Fits, FieldOf, Value, Name, NoTerminator, DispatchOut, IsComment;
      ValueHasNoTerminator(line);
    }
  }

  lemma {:induction false} LinesWellFormed(caps: Caps, blk: Block, lines: seq<bytes>)
    requires CleanBlock(caps, blk) && forall l :: l in lines ==> NoTerminator(l)
    ensures AllWellFormed(caps, RunOut(caps, blk, lines))
    decreases lines
  {
    if lines != [] {
      assert lines[0] in lines;
      LineWellFormed(caps, blk, lines[0]);
      LinesWellFormed(caps, LineBlock(caps, blk, lines[0]), lines[1..]);
    }
  }

  lemma TraceWellFormed(caps: Caps, stream: bytes)
    ensures AllWellFormed(caps, StreamTrace(caps, stream))
  {
    var s := SplitLines(StripBom(stream));
    hide SplitLines, StripBom, RunOut, RunBlock;
    LinesWellFormed(caps, EMPTY, s.lines);
  }
}
