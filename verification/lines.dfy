/** Section 9.2.5 of the WHATWG HTML Standard: lines end in CRLF, LF or CR,
    and one leading byte order mark is ignored. */
module Lines {
  import opened Bytes

  datatype Split = Split(lines: seq<bytes>, rest: bytes)

  datatype Terminator = Lf | Cr | CrLf

  const BOM: bytes := [0xEF, 0xBB, 0xBF]

  predicate IsTerminator(b: byte) {
    b == CR || b == LF
  }

  predicate NoTerminator(s: bytes) {
    CR !in s && LF !in s
  }

  predicate EndsWithCr(s: bytes) {
    s != [] && s[|s| - 1] == CR
  }

  function FirstTerminator(s: bytes): (i: nat)
    ensures i <= |s| && NoTerminator(s[..i])
    ensures i < |s| ==> IsTerminator(s[i])
  {
    if s == [] || IsTerminator(s[0]) then 0
    else
      var i := 1 + FirstTerminator(s[1..]);
      assert s[..i] == [s[0]] + s[1..][..i - 1];
      i
  }

  function TerminatorLength(s: bytes, i: nat): nat
    requires i < |s|
  {
    if s[i] == CR && i + 1 < |s| && s[i + 1] == LF then 2 else 1
  }

  /** The complete lines of a stream, and the unfinished line after them. */
  function SplitLines(s: bytes): (r: Split)
    ensures NoTerminator(r.rest)
    ensures forall l :: l in r.lines ==> NoTerminator(l)
    decreases |s|
  {
    var i := FirstTerminator(s);
    if i == |s| then
      assert s[..i] == s;
      Split([], s)
    else
      var tail := SplitLines(s[i + TerminatorLength(s, i)..]);
      Split([s[..i]] + tail.lines, tail.rest)
  }

  function TerminatorBytes(t: Terminator): bytes {
    match t
    case Lf => [LF]
    case Cr => [CR]
    case CrLf => [CR, LF]
  }

  /** Writes each line followed by its terminator. */
  function Render(lines: seq<bytes>, terms: seq<Terminator>): bytes
    requires |lines| == |terms|
  {
    if lines == [] then []
    else lines[0] + TerminatorBytes(terms[0]) + Render(lines[1..], terms[1..])
  }

  /** A CR directly before an LF would read as one CRLF: that happens when an
      empty line ended by LF follows a line ended by CR. */
  predicate Unmerged(lines: seq<bytes>, terms: seq<Terminator>)
    requires |lines| == |terms|
  {
    forall i :: 0 <= i < |lines| - 1 ==> !(terms[i] == Cr && lines[i + 1] == [] && terms[i + 1] == Lf)
  }

  lemma FirstTerminatorIs(s: bytes, i: nat)
    requires i <= |s| && NoTerminator(s[..i])
    requires i < |s| ==> IsTerminator(s[i])
    ensures FirstTerminator(s) == i
  {
    var k := FirstTerminator(s);
    assert k < |s| ==> IsTerminator(s[k]);
    assert forall j :: 0 <= j < i ==> s[j] in s[..i];
    assert forall j :: 0 <= j < k ==> s[j] in s[..k];
  }

  /** The first line of a stream, cut off. */
  lemma SplitFirst(line: bytes, t: Terminator, tail: bytes)
    requires NoTerminator(line)
    requires t == Cr ==> tail == [] || tail[0] != LF
    ensures SplitLines(line + TerminatorBytes(t) + tail) ==
            Split([line] + SplitLines(tail).lines, SplitLines(tail).rest)
  {
    var s := line + TerminatorBytes(t) + tail;
    assert s[..|line|] == line;
    FirstTerminatorIs(s, |line|);
    assert TerminatorLength(s, |line|) == |TerminatorBytes(t)|;
    assert s[|line| + TerminatorLength(s, |line|)..] == tail;
  }

  /** A stream without a terminator is one unfinished line. */
  lemma SplitNone(s: bytes)
    requires NoTerminator(s)
    ensures SplitLines(s) == Split([], s)
  {
    assert s[..|s|] == s;
    FirstTerminatorIs(s, |s|);
  }

  /** Every stream with a terminator is a first line, its terminator and a tail. */
  lemma CutFirst(s: bytes) returns (line: bytes, t: Terminator, tail: bytes)
    requires FirstTerminator(s) < |s|
    ensures s == line + TerminatorBytes(t) + tail && NoTerminator(line)
    ensures t == Cr ==> tail == [] || tail[0] != LF
    ensures |tail| < |s|
    ensures SplitLines(s) == Split([line] + SplitLines(tail).lines, SplitLines(tail).rest)
    ensures Terminators(s) == [t] + Terminators(tail)
  {
    var i := FirstTerminator(s);
    var n := TerminatorLength(s, i);
    line, t, tail := s[..i], if n == 2 then CrLf else if s[i] == CR then Cr else Lf, s[i + n..];
  }

  /** Splitting undoes writing. */
  lemma {:induction false} SplitOfRender(lines: seq<bytes>, terms: seq<Terminator>, rest: bytes)
    requires |lines| == |terms| && Unmerged(lines, terms)
    requires NoTerminator(rest) && forall l :: l in lines ==> NoTerminator(l)
    ensures SplitLines(Render(lines, terms) + rest) == Split(lines, rest)
  {
    if lines == [] {
      assert Render(lines, terms) + rest == rest;
      SplitNone(rest);
    } else {
      var line, t, ls, ts := lines[0], terms[0], lines[1..], terms[1..];
      assert lines == [line] + ls && terms == [t] + ts;
      UnmergedTail(lines, terms);
      RenderHead(ls, ts, rest);
      SplitOfRender(ls, ts, rest);
      hide SplitLines, Render;
      RenderCons(line, t, ls, ts, rest);
      assert t == Cr && Render(ls, ts) + rest != [] ==> (Render(ls, ts) + rest)[0] != LF;
      SplitFirst(line, t, Render(ls, ts) + rest);
    }
  }

  lemma UnmergedTail(lines: seq<bytes>, terms: seq<Terminator>)
    requires |lines| == |terms| > 0 && Unmerged(lines, terms)
    ensures Unmerged(lines[1..], terms[1..])
  {
    forall i | 0 <= i < |lines| - 2
      ensures !(terms[1..][i] == Cr && lines[1..][i + 1] == [] && terms[1..][i + 1] == Lf)
    {
      assert !(terms[i + 1] == Cr && lines[i + 2] == [] && terms[i + 2] == Lf);
    }
  }

  /** A written stream starts with an LF only where an empty line ends in one. */
  lemma RenderHead(lines: seq<bytes>, terms: seq<Terminator>, rest: bytes)
    requires |lines| == |terms|
    requires NoTerminator(rest) && forall l :: l in lines ==> NoTerminator(l)
    ensures var s := Render(lines, terms) + rest;
            s != [] && s[0] == LF ==> lines != [] && lines[0] == [] && terms[0] == Lf
  {
    if lines == [] {
      assert Render(lines, terms) + rest == rest;
    } else if lines[0] != [] {
      assert lines[0] in lines && lines[0][0] in lines[0];
      assert (Render(lines, terms) + rest)[0] == lines[0][0];
    }
  }

  /** The terminators of the complete lines of `s`, in order. */
  function Terminators(s: bytes): (ts: seq<Terminator>)
    ensures |ts| == |SplitLines(s).lines|
    decreases |s|
  {
    var i := FirstTerminator(s);
    if i == |s| then []
    else
      var n := TerminatorLength(s, i);
      [if n == 2 then CrLf else if s[i] == CR then Cr else Lf] + Terminators(s[i + n..])
  }

  /** Writing undoes splitting: no byte of the stream is lost or moved. */
  lemma {:induction false} RenderOfSplit(s: bytes)
    ensures Render(SplitLines(s).lines, Terminators(s)) + SplitLines(s).rest == s
    ensures Unmerged(SplitLines(s).lines, Terminators(s))
    decreases |s|
  {
    if FirstTerminator(s) == |s| {
      SplitNone(s[..|s|]);
      assert s[..|s|] == s;
    } else {
      var line, t, tail := CutFirst(s);
      RenderOfSplit(tail);
      RenderFirst(line, t, tail);
    }
  }

  /** One step of the above, for the first line. */
  lemma RenderFirst(line: bytes, t: Terminator, tail: bytes)
    requires t == Cr ==> tail == [] || tail[0] != LF
    requires Render(SplitLines(tail).lines, Terminators(tail)) + SplitLines(tail).rest == tail
    requires Unmerged(SplitLines(tail).lines, Terminators(tail))
    ensures var lines, ts, rest := SplitLines(tail).lines, Terminators(tail), SplitLines(tail).rest;
            && Render([line] + lines, [t] + ts) + rest == line + TerminatorBytes(t) + tail
            && Unmerged([line] + lines, [t] + ts)
  {
    var lines, ts, rest := SplitLines(tail).lines, Terminators(tail), SplitLines(tail).rest;
    RenderHead(lines, ts, rest);
    RenderCons(line, t, lines, ts, rest);
    assert |lines| > 0 && lines[0] == [] && ts[0] == Lf ==> tail[0] == LF;
    hide SplitLines, Terminators, Render, Unmerged;
    UnmergedCons(line, t, lines, ts);
  }

  lemma UnmergedCons(line: bytes, t: Terminator, lines: seq<bytes>, ts: seq<Terminator>)
    requires |lines| == |ts| && Unmerged(lines, ts)
    requires t == Cr && lines != [] ==> !(lines[0] == [] && ts[0] == Lf)
    ensures Unmerged([line] + lines, [t] + ts)
  {
  }

  lemma RenderCons(line: bytes, t: Terminator, lines: seq<bytes>, ts: seq<Terminator>, rest: bytes)
    requires |lines| == |ts|
    ensures Render([line] + lines, [t] + ts) + rest == line + TerminatorBytes(t) + (Render(lines, ts) + rest)
  {
    assert ([line] + lines)[1..] == lines && ([t] + ts)[1..] == ts;
    ConcatAssociates(line + TerminatorBytes(t), Render(lines, ts), rest);
  }

  /** What one more byte makes of a split. */
  function Extended(split: Split, b: byte, afterCr: bool): Split {
    if !IsTerminator(b) then Split(split.lines, split.rest + [b])
    else if b == LF && afterCr then split
    else Split(split.lines + [split.rest], [])
  }

  lemma ExtendedCons(line: bytes, tail: Split, b: byte, f: bool, g: bool)
    requires f == g || b != LF
    ensures var e := Extended(tail, b, g);
            Extended(Split([line] + tail.lines, tail.rest), b, f) == Split([line] + e.lines, e.rest)
  {
    ConcatAssociates([line], tail.lines, [tail.rest]);
  }

  lemma SameLastByte(line: bytes, t: Terminator, tail: bytes)
    requires t != Cr || tail != []
    ensures EndsWithCr(line + TerminatorBytes(t) + tail) == EndsWithCr(tail)
  {
  }

  lemma SplitSnocNone(s: bytes, b: byte)
    requires FirstTerminator(s) == |s|
    ensures SplitLines(s + [b]) == Extended(SplitLines(s), b, EndsWithCr(s))
  {
    assert s[..|s|] == s;
    SplitNone(s);
    if IsTerminator(b) {
      var t := if b == CR then Cr else Lf;
      assert s + [b] == s + TerminatorBytes(t) + [];
      SplitFirst(s, t, []);
    } else {
      SplitNone(s + [b]);
    }
  }

  lemma SplitSnocCrLf(line: bytes)
    requires NoTerminator(line)
    ensures SplitLines(line + [CR] + [LF]) == SplitLines(line + [CR]) == Split([line], [])
  {
    assert line + [CR] + [LF] == line + TerminatorBytes(CrLf) + [];
    assert line + [CR] == line + TerminatorBytes(Cr) + [];
    SplitNone([]);
    SplitFirst(line, CrLf, []);
    SplitFirst(line, Cr, []);
  }

  /** How one more byte changes the split. */
  lemma {:induction false} SplitSnoc(s: bytes, b: byte)
    ensures SplitLines(s + [b]) == Extended(SplitLines(s), b, EndsWithCr(s))
    decreases |s|
  {
    if FirstTerminator(s) == |s| {
      SplitSnocNone(s, b);
    } else {
      var line, t, tail := CutFirst(s);
      if t == Cr && tail == [] && b == LF {
        assert s == line + [CR];
        SplitSnocCrLf(line);
      } else {
        SplitSnoc(tail, b);
        hide SplitLines, Extended, EndsWithCr;
        ConcatAssociates(line + TerminatorBytes(t), tail, [b]);
        assert (tail + [b])[0] == if tail == [] then b else tail[0];
        SplitFirst(line, t, tail + [b]);
        if t != Cr || tail != [] {
          SameLastByte(line, t, tail);
        }
        ExtendedCons(line, SplitLines(tail), b, EndsWithCr(s), EndsWithCr(tail));
      }
    }
  }

  /** Lines of a stream that follow a completed line do not depend on it. */
  lemma {:induction false} SplitConcat(a: bytes, b: bytes)
    requires SplitLines(a).rest == []
    requires EndsWithCr(a) ==> b == [] || b[0] != LF
    ensures SplitLines(a + b) == Split(SplitLines(a).lines + SplitLines(b).lines, SplitLines(b).rest)
    decreases |a|
  {
    if FirstTerminator(a) == |a| {
      assert a[..|a|] == a;
      SplitNone(a);
      assert a + b == b;
    } else {
      var line, t, tail := CutFirst(a);
      SplitConcat(tail, b);
      ConcatAssociates(line + TerminatorBytes(t), tail, b);
      SplitFirst(line, t, tail + b);
      ConcatAssociates([line], SplitLines(tail).lines, SplitLines(b).lines);
    }
  }

  /** One leading byte order mark is not part of the stream. */
  function StripBom(s: bytes): bytes {
    if BOM <= s then s[3..] else s
  }

  /** `s` may still turn out to start with a byte order mark. */
  predicate AwaitsBom(s: bytes) {
    s < BOM
  }

  lemma StripBomSnoc(s: bytes, b: byte)
    requires !AwaitsBom(s)
    ensures !AwaitsBom(s + [b]) && StripBom(s + [b]) == StripBom(s) + [b]
  {
    var s' := s + [b];
    if |s| >= 3 {
      assert s'[..3] == s[..3];
    } else {
      assert s == s'[..|s|];
    }
  }
}
