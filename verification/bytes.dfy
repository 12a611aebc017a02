/** Bytes, the few ASCII codes the stream format uses, and C strings. */
module Bytes {

  datatype Option<+T> = None | Some(value: T)

  type byte = x: int | 0 <= x < 256
  type bytes = seq<byte>

  const NUL: byte := 0
  const LF: byte := 10
  const CR: byte := 13
  const SPACE: byte := 32
  const COLON: byte := 58

  const UINT32_MAX: nat := 0xFFFF_FFFF
  const INT32_MAX: nat := 0x7FFF_FFFF
  const TWO32: nat := 0x1_0000_0000

  predicate IsDigit(b: byte) {
    48 <= b <= 57
  }

  function DigitValue(b: byte): nat
    requires IsDigit(b)
  {
    b as int - 48
  }

  /** ASCII letters in lower case. */
  function LowerCase(b: byte): byte {
    if 65 <= b <= 90 then b + 32 else b
  }

  function Lowered(s: bytes): (l: bytes)
    ensures |l| == |s| && forall i :: 0 <= i < |s| ==> l[i] == LowerCase(s[i])
  {
    seq(|s|, i requires 0 <= i < |s| => LowerCase(s[i]))
  }

  /** The position of the first `c` in `s`, or `|s|` when there is none. */
  function IndexOf(s: bytes, c: byte): (i: nat)
    ensures i <= |s|
    ensures forall j :: 0 <= j < i ==> s[j] != c
    ensures i < |s| ==> s[i] == c
  {
    if s == [] || s[0] == c then 0 else 1 + IndexOf(s[1..], c)
  }

  /** The three postconditions of IndexOf leave only one position. */
  lemma IndexOfIs(s: bytes, c: byte, i: nat)
    requires i <= |s|
    requires forall j :: 0 <= j < i ==> s[j] != c
    requires i < |s| ==> s[i] == c
    ensures IndexOf(s, c) == i
  {
    var k := IndexOf(s, c);
    assert k < |s| ==> s[k] == c;
  }

  lemma IndexOfPrefix(a: bytes, b: bytes, c: byte)
    requires IndexOf(a, c) < |a|
    ensures IndexOf(a + b, c) == IndexOf(a, c)
  {
    IndexOfIs(a + b, c, IndexOf(a, c));
  }

  lemma IndexOfJoined(a: bytes, b: bytes, c: byte)
    requires c !in a && (b != [] ==> b[0] == c)
    ensures IndexOf(a + b, c) == |a|
  {
    IndexOfIs(a + b, c, |a|);
  }

  /** What a C reader sees in a buffer: everything before the first NUL. */
  function CString(buf: bytes): (s: bytes)
    ensures s <= buf && 0 !in s && (|s| < |buf| ==> buf[|s|] == 0)
  {
    buf[..IndexOf(buf, NUL)]
  }

  lemma CStringOf(buf: bytes, s: bytes)
    requires |s| < |buf| && buf[..|s|] == s && buf[|s|] == NUL
    requires NUL !in s
    ensures CString(buf) == s
  {
    forall j | 0 <= j < |s| ensures buf[j] != NUL {
      assert buf[j] == s[j];
    }
    IndexOfIs(buf, NUL, |s|);
  }

  /** `snprintf(buf, cap, "%s", s)` */
  function Printed(s: bytes, cap: nat): (p: bytes)
    ensures p <= s && (cap > 0 ==> |p| == if |s| < cap then |s| else cap - 1)
  {
    if |s| < cap then s else if cap == 0 then [] else s[..cap - 1]
  }

  lemma ConcatAssociates<T>(a: seq<T>, b: seq<T>, c: seq<T>)
    ensures a + (b + c) == (a + b) + c
  {
  }

  function Min(a: int, b: int): int {
    if a <= b then a else b
  }
}
