/** The receive queue of ports/posix/sse_transport_curl.c: a circular buffer that
    takes each delivery of libcurl whole or pauses the transfer. libcurl delivers
    in order, at most half the ring at a time, delivers a refused chunk again
    before anything else, and never finishes a transfer that is paused. */
module CurlRing {
  import opened Bytes

  const RING_CAP: nat := 32 * 1024
  const HALF: nat := 16 * 1024

  const READ_TIMEOUT: int := 0
  const READ_EOF: int := -1
  const READ_ERROR: int := -2

  /** The index of the `k`th place from `head`. */
  function Slot(head: nat, k: nat): (i: nat)
    requires head < RING_CAP && k <= RING_CAP
    ensures i < RING_CAP && i == (head + k) % RING_CAP
  {
    if head + k < RING_CAP then head + k else head + k - RING_CAP
  }

  /** The bytes of a ring with these cells, in order. */
  function Queue(cells: seq<byte>, head: nat, len: nat): (q: bytes)
    requires |cells| == RING_CAP && head < RING_CAP && len <= RING_CAP
    ensures |q| == len && forall k :: 0 <= k < len ==> q[k] == cells[Slot(head, k)]
  {
    if head + len <= RING_CAP then cells[head..head + len]
    else cells[head..] + cells[..head + len - RING_CAP]
  }

  lemma QueueExtended(was: seq<byte>, now: seq<byte>, head: nat, len: nat, chunk: bytes)
    requires |was| == |now| == RING_CAP && head < RING_CAP && len + |chunk| <= RING_CAP
    requires forall k :: 0 <= k < len ==> now[Slot(head, k)] == was[Slot(head, k)]
    requires forall k :: 0 <= k < |chunk| ==> now[Slot(head, len + k)] == chunk[k]
    ensures Queue(now, head, len + |chunk|) == Queue(was, head, len) + chunk
  {
    var q := Queue(now, head, len + |chunk|);
    forall k | 0 <= k < |q| ensures q[k] == (Queue(was, head, len) + chunk)[k] {
      if k >= len {
        var i := k - len;
        assert k == len + i && now[Slot(head, len + i)] == chunk[i];
      }
    }
  }

  lemma QueueDropped(cells: seq<byte>, head: nat, len: nat, n: nat)
    requires |cells| == RING_CAP && head < RING_CAP && n <= len <= RING_CAP
    ensures Queue(cells, Slot(head, n), len - n) == Queue(cells, head, len)[n..]
  {
    var q := Queue(cells, Slot(head, n), len - n);
    forall k | 0 <= k < |q| ensures q[k] == Queue(cells, head, len)[n..][k] {
      assert Slot(Slot(head, n), k) == Slot(head, n + k);
    }
  }

  lemma SplitConcatenated(a: bytes, q: bytes, n: nat)
    requires n <= |q|
    ensures a + q == (a + q[..n]) + q[n..]
  {
  }

  class Transfer {
    const ring: array<byte>
    var rHead: nat
    var rLen: nat
    var headerBlockStatus: int
    var bodyStarted: bool
    var transferDone: bool
    var transferOk: bool
    var paused: bool

    /** The chunk that libcurl holds because it was refused. */
    var pending: bytes

    // The record of the transfer, which the program does not keep.
    var sent: bytes      // everything libcurl has brought
    var accepted: bytes  // what went into the ring
    var handed: bytes    // what came out of it
    var broken: bool     // libcurl itself has failed

    ghost predicate GoodRing()
      reads this`rHead, this`rLen
    {
      ring.Length == RING_CAP && rHead < RING_CAP && rLen <= RING_CAP
    }

    ghost function Contents(): (s: bytes)
      requires GoodRing()
      reads this`rHead, this`rLen, ring
    {
      Queue(ring[..], rHead, rLen)
    }

    ghost predicate Valid()
      reads this, ring
    {
      && GoodRing()
      && accepted == handed + Contents()
      && sent == accepted + pending
      && |pending| <= HALF
      && (paused ==> pending != [])
      && (!paused ==> rLen + |pending| <= RING_CAP)
      && (transferDone ==> pending == [])
    }

    constructor (status: int)
      ensures Valid() && Readable() && fresh(ring)
      ensures sent == accepted == handed == [] && !paused && !transferDone && headerBlockStatus == status
    {
      ring := new byte[RING_CAP];
      rHead, rLen, headerBlockStatus := 0, 0, status;
      bodyStarted, transferDone, transferOk, paused, broken := false, false, false, false, false;
      pending, sent, accepted, handed := [], [], [], [];
    }

    /** First in, first out: what has come out is the beginning of what went in. */
    lemma FirstInFirstOut()
      requires Valid()
      ensures handed <= accepted <= sent && |accepted| == |handed| + rLen
    {
    }

    /** libcurl's write callback: all of the chunk, or a pause. */
    method OnBody(chunk: bytes) returns (taken: bool)
      requires GoodRing()
      modifies this`rLen, this`bodyStarted, this`paused, ring
      ensures GoodRing()
      ensures 300 <= headerBlockStatus < 400 ==>
                taken && rLen == old(rLen) && paused == old(paused) && ring[..] == old(ring[..])
      ensures !(300 <= headerBlockStatus < 400) ==> taken == (|chunk| <= 32768 - old(rLen))
      ensures !(300 <= headerBlockStatus < 400) && taken ==>
                Contents() == old(Contents()) + chunk && paused == old(paused)
      ensures !taken ==> paused && rLen == old(rLen) && ring[..] == old(ring[..])
    {
      if 300 <= headerBlockStatus < 400 {
        return true;
      }
      bodyStarted := true;
      if |chunk| > RING_CAP - rLen {
        paused := true;
        return false;
      }
      ghost var was := ring[..];
      for i := 0 to |chunk|
        invariant rLen == old(rLen) && paused == old(paused)
        invariant forall k :: 0 <= k < rLen ==> ring[Slot(rHead, k)] == was[Slot(rHead, k)]
        invariant forall k :: 0 <= k < i ==> ring[Slot(rHead, rLen + k)] == chunk[k]
      {
        assert Slot(rHead, rLen + i) == (rHead + rLen + i) % RING_CAP;
        ring[(rHead + rLen + i) % RING_CAP] := chunk[i];
      }
      QueueExtended(was, ring[..], rHead, rLen, chunk);
      rLen := rLen + |chunk|;
      return true;
    }

    // ---- libcurl ----

    /** No deadlock: a paused transfer leaves at least half the ring to read. */
    ghost predicate Readable()
      reads this`paused, this`rLen
    {
      paused ==> rLen >= HALF
    }

    /** Nothing is handed out, and nothing accepted is lost. */
    twostate predicate OnlyBrings()
      reads this
    {
      && handed == old(handed) && old(accepted) <= accepted && old(sent) <= sent
      && rLen >= old(rLen) && headerBlockStatus == old(headerBlockStatus)
      && (old(transferDone) ==> transferDone && transferOk == old(transferOk) && rLen == old(rLen))
      && (old(broken) ==> broken)
    }

    /** libcurl brings the refused chunk, or else a new one. */
    method Deliver()
      requires Valid() && Readable() && !paused && !transferDone
      modifies this, ring
      ensures Valid() && Readable() && OnlyBrings() && !transferDone && broken == old(broken)
      ensures if 300 <= headerBlockStatus < 400 then
                !paused && accepted == old(accepted) && pending == old(pending)
              else |accepted| >= |old(accepted)| + |old(pending)|
    {
      var chunk: bytes := *;
      if 300 <= headerBlockStatus < 400 {
        // the body of a redirect
        var _ := OnBody(chunk);
        return;
      }
      if pending != [] {
        chunk := pending;
        pending := [];
      } else {
        chunk := if |chunk| > HALF then chunk[..HALF] else chunk;
        sent := sent + chunk;
      }
      DeliverBody(chunk);
    }

    method DeliverBody(chunk: bytes)
      requires GoodRing() && accepted == handed + Contents() && sent == accepted + chunk && pending == []
      requires !(300 <= headerBlockStatus < 400) && !paused && !transferDone && |chunk| <= HALF
      modifies this`rLen, this`bodyStarted, this`paused, this`pending, this`accepted, ring
      ensures Valid() && Readable() && old(accepted) <= accepted && rLen >= old(rLen)
      ensures |chunk| <= RING_CAP - old(rLen) ==> accepted == old(accepted) + chunk
    {
      ghost var was := Contents();
      var taken := OnBody(chunk);
      if taken {
        accepted := accepted + chunk;
        ConcatAssociates(handed, was, chunk);
      } else {
        pending := chunk;
      }
    }

    /** Any number of deliveries, until one is refused. */
    method DeliverSome()
      requires Valid() && Readable()
      modifies this, ring
      ensures Valid() && Readable() && OnlyBrings() && (old(transferDone) || !transferDone) && broken == old(broken)
      ensures !old(paused) && paused && old(pending) != [] ==> |old(accepted)| < |accepted|
    {
      var rounds: nat :| rounds >= 0;
      while rounds > 0 && !paused && !transferDone
        invariant Valid() && Readable() && OnlyBrings() && (old(transferDone) || !transferDone) && broken == old(broken)
        invariant || |old(accepted)| < |accepted| || old(pending) == []
                  || (paused == old(paused) && pending == old(pending))
      {
        Deliver();
        rounds := rounds - 1;
      }
    }

    /** libcurl runs: deliveries, then perhaps the end of the transfer. */
    method Perform() returns (ok: bool)
      requires Valid() && Readable()
      modifies this, ring
      ensures Valid() && Readable() && OnlyBrings() && broken == (old(broken) || !ok)
    {
      DeliverSome();
      var done: bool := *;
      if done && !paused && pending == [] && !transferDone {
        transferDone := true;
        transferOk := *;
      }
      ok := *;
      broken := broken || !ok;
    }

    // ---- the transport ----

    /** Half the ring is free: the transfer goes on, perhaps at once. */
    method Unpause()
      requires Valid()
      modifies this, ring
      ensures Valid() && Readable() && OnlyBrings()
      ensures old(paused) && paused && old(rLen) < 16384 ==> |old(accepted)| < |accepted|
      ensures transferDone == old(transferDone) && broken == old(broken)
    {
      if paused && rLen < HALF {
        paused := false;
        DeliverSome();
      }
    }

    method Pump() returns (ok: bool)
      requires Valid()
      modifies this, ring
      ensures Valid() && Readable() && handed == old(handed) && rLen >= old(rLen)
      ensures OnlyBrings() && broken == (old(broken) || !ok)
    {
      Unpause();
      ok := Perform();
    }

    function Finished(): int
      reads this`transferOk
    {
      if transferOk then READ_EOF else READ_ERROR
    }

    /** curl_read_fn: what comes out is what went in, in order; an end is reported
        only when nothing is left, and a timeout never while a transfer is paused. */
    method Read(buf: array<byte>, len: nat) returns (r: int)
      requires Valid() && len <= buf.Length && buf != ring
      modifies this, ring, buf
      ensures Valid() && Readable() && old(accepted) <= accepted
      ensures if r > 0 then r <= len && handed == old(handed) + buf[..r] else handed == old(handed)
      ensures r == -1 ==> transferDone && transferOk && handed == sent
      ensures r == -2 ==> broken || (transferDone && !transferOk && handed == sent)
      ensures r == 0 && len > 0 ==> rLen == 0 && !paused && !transferDone
      ensures old(rLen) > 0 ==> r == if old(rLen) < len then old(rLen) else len
      ensures old(rLen) == 0 && old(transferDone) ==> r == if old(transferOk) then -1 else -2
      ensures r >= -2
    {
      if rLen == 0 {
        if transferDone {
          return Finished();
        }
        var ok := Pump();
        if !ok {
          return READ_ERROR;
        }
        if rLen == 0 {
          return if transferDone then Finished() else READ_TIMEOUT;
        }
      }
      r := if rLen < len then rLen else len;
      TakeOut(buf, r);
      Unpause();
    }

    method TakeOut(buf: array<byte>, n: nat)
      requires Valid() && n <= rLen && n <= buf.Length && buf != ring
      modifies this`rHead, this`rLen, this`handed, buf
      ensures Valid() && handed == old(handed) + buf[..n] && rLen == old(rLen) - n
    {
      ghost var q := Contents();
      CopyOut(buf, n);
      SplitConcatenated(handed, q, n);
      DropFront(n);
      handed := handed + buf[..n];
    }

    method DropFront(n: nat)
      requires GoodRing() && n <= rLen
      modifies this`rHead, this`rLen
      ensures GoodRing() && rLen == old(rLen) - n && Contents() == old(Contents())[n..]
    {
      QueueDropped(ring[..], rHead, rLen, n);
      hide Queue;
      rHead := (rHead + n) % RING_CAP;
      rLen := rLen - n;
    }

    method CopyOut(buf: array<byte>, n: nat)
      requires GoodRing() && n <= rLen && n <= buf.Length && buf != ring
      modifies buf
      ensures buf[..n] == Contents()[..n]
    {
      for i := 0 to n
        invariant buf[..i] == Contents()[..i]
      {
        assert Contents()[i] == ring[Slot(rHead, i)];
        buf[i] := ring[(rHead + i) % RING_CAP];
      }
    }

    /** A paused transfer comes back to life by reading alone: after finitely many
        reads it is no longer paused, or the refused chunk has been accepted. */
    method ReadUntilResumed(buf: array<byte>)
      requires Valid() && Readable() && buf != ring && buf.Length > 0
      modifies this, ring, buf
      ensures Valid() && Readable() && (paused ==> |old(accepted)| < |accepted|)
    {
      var before := |accepted|;
      while paused && |accepted| == before
        invariant Valid() && Readable() && before <= |accepted|
        decreases if paused && |accepted| == before then rLen + 1 else 0
      {
        var _ := Read(buf, buf.Length);
      }
    }
  }
}
