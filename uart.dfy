/**
 * The radio transmit queue of common/uart.c: a 256-byte buffer with two
 * `uint8_t` indices, the CTS output line (PORTD bit 5) and the bytes written
 * to the data register UDR1.
 *
 * The pure part (datatype `Tx` and the functions on it) says what each
 * operation does to the whole state; the class `Transmitter` is the in-place
 * version the firmware runs, and each of its methods is tied to one of those
 * functions.
 */
module Uart {

  import opened Bytes

  /** Capacity of `xmit_buf`; one more than the largest `uint8_t` index. */
  const BUFFER_LEN: nat := 256

  /** `x++` on a `uint8_t`: 255 wraps to 0. */
  function Inc8(x: uint8): (r: uint8)
    ensures r as int == (x as int + 1) % 256
  {
    if x == 255 then 0 else x + 1
  }

  /**
   * The whole transmit-path state: `xmit_buf`, `xmit_idx_head`,
   * `xmit_idx_tail`, the CTS output (true = driven high) and every byte
   * written to UDR1 so far, oldest first.
   */
  datatype Tx = Tx(buf: seq<uint8>, head: uint8, tail: uint8, cts: bool, wire: seq<uint8>)

  predicate Wf(s: Tx) {
    |s.buf| == BUFFER_LEN
  }

  /**
   * The queue is in order: head <= tail, and head meets tail only in the
   * reset state 0/0 (the pump resets both indices as soon as they meet).
   */
  predicate Inv(s: Tx) {
    Wf(s) && s.head <= s.tail && (s.head == s.tail ==> s.tail == 0)
  }

  /** The bytes waiting to be sent, next one first. */
  function Pending(s: Tx): (p: seq<uint8>)
    requires Inv(s)
    ensures |p| == s.tail as int - s.head as int
  {
    s.buf[s.head..s.tail]
  }

  /** The pump's emptiness test: both indices zero, not head == tail. */
  predicate IsEmpty(s: Tx) {
    s.head == 0 && s.tail == 0
  }

  /** A state with both indices reset, whatever the buffer and line hold. */
  predicate IsReset(s: Tx) {
    Wf(s) && IsEmpty(s)
  }

  /**
   * `uart_xmit`: store the byte at `tail` and step `tail`. The "buffer full"
   * guard compares a `uint8_t` with 256 and so never fires; at 255 the
   * increment wraps `tail` to 0.
   */
  function Push(s: Tx, data: uint8): (r: Tx)
    requires Wf(s)
    ensures Wf(r)
  {
    if s.tail as int == BUFFER_LEN then s
    else s.(buf := s.buf[s.tail := data], tail := Inc8(s.tail))
  }

  /** `uart_xmit` applied to each byte of `data`, first to last. */
  function PushAll(s: Tx, data: seq<uint8>): (r: Tx)
    requires Wf(s)
    ensures Wf(r)
    decreases |data|
  {
    if data == [] then s
    else Push(PushAll(s, data[..|data| - 1]), data[|data| - 1])
  }

  /**
   * `send_xmit_buf`, one call, given the level read from PINB7 (`rtsHigh`)
   * and the UDRE1 "data register empty" flag (`udre`). The RTS test has its
   * `return` commented out, so `rtsHigh` changes nothing. A non-empty queue
   * drives CTS high; with UDRE1 set it then sends `buf[head]`, steps `head`,
   * resets both indices when they meet, and drives CTS low.
   */
  function Pump(s: Tx, rtsHigh: bool, udre: bool): (r: Tx)
    requires Wf(s)
    ensures Wf(r)
  {
    if IsEmpty(s) then s
    else if !udre then s.(cts := true)
    else
      var h := Inc8(s.head);
      var sent := s.(wire := s.wire + [s.buf[s.head]], cts := false);
      if h == s.tail then sent.(head := 0, tail := 0) else sent.(head := h)
  }

  /** `n` calls of `send_xmit_buf` with UDRE1 set every time. */
  function Drain(s: Tx, n: nat): (r: Tx)
    requires Wf(s)
    ensures Wf(r)
  {
    if n == 0 then s else Pump(Drain(s, n - 1), false, true)
  }

  /** One `uart_xmit` below the wrap point appends exactly one pending byte. */
  lemma PushAppends(s: Tx, data: uint8)
    requires Inv(s) && s.tail < 255
    ensures Inv(Push(s, data))
    ensures Push(s, data).head == s.head && Push(s, data).tail == s.tail + 1
    ensures Pending(Push(s, data)) == Pending(s) + [data]
    ensures Push(s, data).buf[s.tail] == data
    ensures forall i :: 0 <= i < BUFFER_LEN && i != s.tail as int ==> Push(s, data).buf[i] == s.buf[i]
    ensures Push(s, data).cts == s.cts && Push(s, data).wire == s.wire
  {
    var r := Push(s, data);
    assert Pending(r) == s.buf[s.head..s.tail] + [data];
  }

  /** At `tail == 255` the full guard does not fire: the byte is stored and `tail` wraps to 0. */
  lemma PushWraps(s: Tx, data: uint8)
    requires Wf(s) && s.tail == 255
    ensures Push(s, data).tail == 0 && Push(s, data).head == s.head
    ensures Push(s, data).buf == s.buf[255 := data]
    ensures s.head == 0 ==> IsEmpty(Push(s, data))
  {
  }

  /** Pushing bytes that fit below the end of the buffer writes them at `tail` onwards. */
  lemma {:induction false} PushAllEffect(s: Tx, data: seq<uint8>)
    requires Wf(s) && s.tail as int + |data| <= BUFFER_LEN
    ensures PushAll(s, data).buf == s.buf[..s.tail] + data + s.buf[s.tail as int + |data|..]
    ensures PushAll(s, data).tail as int == (s.tail as int + |data|) % 256
    ensures PushAll(s, data).head == s.head
    ensures PushAll(s, data).cts == s.cts && PushAll(s, data).wire == s.wire
    decreases |data|
  {
    if data != [] {
      var n := |data| - 1;
      var front := data[..n];
      PushAllEffect(s, front);
      var q := PushAll(s, front);
      var t := s.tail as int + n;
      assert q.tail as int == t;
      assert q.buf[t := data[n]] == s.buf[..s.tail] + data + s.buf[t + 1..] by {
        assert front + [data[n]] == data;
      }
    }
  }

  /** A bulk append followed by one more byte is a bulk append of the longer sequence. */
  lemma PushAllSnoc(s: Tx, a: seq<uint8>, b: uint8)
    requires Wf(s)
    ensures Push(PushAll(s, a), b) == PushAll(s, a + [b])
  {
    assert (a + [b])[..|a|] == a;
  }

  /** Appending never sends anything, never moves `head` and never touches CTS. */
  lemma {:induction false} PushAllKeepsOutput(s: Tx, data: seq<uint8>)
    requires Wf(s)
    ensures PushAll(s, data).wire == s.wire
    ensures PushAll(s, data).head == s.head && PushAll(s, data).cts == s.cts
    decreases |data|
  {
    if data != [] {
      PushAllKeepsOutput(s, data[..|data| - 1]);
    }
  }

  /** Two bulk appends are one bulk append of the concatenation. */
  lemma {:induction false} PushAllAppend(s: Tx, a: seq<uint8>, b: seq<uint8>)
    requires Wf(s)
    ensures PushAll(PushAll(s, a), b) == PushAll(s, a + b)
    decreases |b|
  {
    if b != [] {
      var n := |b| - 1;
      PushAllAppend(s, a, b[..n]);
      assert (a + b)[..|a + b| - 1] == a + b[..n];
    } else {
      assert a + b == a;
    }
  }

  /**
   * `uart_xmit_str` on an ordered queue appends exactly `data` to the pending
   * bytes, as long as `tail` stays below the wrap point.
   */
  lemma PushAllPending(s: Tx, data: seq<uint8>)
    requires Inv(s) && s.tail as int + |data| < BUFFER_LEN
    ensures Inv(PushAll(s, data))
    ensures Pending(PushAll(s, data)) == Pending(s) + data
    ensures PushAll(s, data).head == s.head
    ensures PushAll(s, data).cts == s.cts && PushAll(s, data).wire == s.wire
  {
    PushAllEffect(s, data);
    var r := PushAll(s, data);
    assert r.tail as int == s.tail as int + |data|;
    assert r.buf[..s.tail] == s.buf[..s.tail];
    assert r.buf[s.tail..r.tail] == data;
  }

  /**
   * The wrap quirk: 256 bytes pushed from the reset state all land in the
   * buffer, but `tail` wraps back to 0, so the queue reads as empty and the
   * pump never sends any of them.
   */
  lemma WrapLosesAll(s: Tx, data: seq<uint8>, rtsHigh: bool, udre: bool)
    requires IsReset(s) && |data| == BUFFER_LEN
    ensures PushAll(s, data).buf == data
    ensures IsEmpty(PushAll(s, data))
    ensures Pump(PushAll(s, data), rtsHigh, udre) == PushAll(s, data)
  {
    PushAllEffect(s, data);
  }

  /**
   * The wrap is harmless while `head` is above 0: the two `uint8_t` indices
   * then behave as a 256-slot ring. With `head` at 254 and `tail` at 255, two
   * more bytes land in slots 255 and 0, and three ready pumps send slots 254,
   * 255 and 0 in order and reset both indices.
   */
  lemma RingWraps(s: Tx, a: uint8, b: uint8)
    requires Wf(s) && s.head == 254 && s.tail == 255
    ensures Push(Push(s, a), b).tail == 1
    ensures Drain(Push(Push(s, a), b), 3).wire == s.wire + [s.buf[254], a, b]
    ensures IsEmpty(Drain(Push(Push(s, a), b), 3))
  {
    var q := Push(Push(s, a), b);
    assert q.buf[254] == s.buf[254] && q.buf[255] == a && q.buf[0] == b;
    assert Drain(q, 1).head == 255 && Drain(q, 1).wire == s.wire + [s.buf[254]];
    assert Drain(q, 2).head == 0 && Drain(q, 2).tail == 1;
  }

  /**
   * Under the invariant the both-zero test of `send_xmit_buf` agrees with
   * "nothing pending"; outside it, equal non-zero indices are not empty.
   */
  lemma EmptyTest(s: Tx, k: uint8)
    requires Inv(s)
    ensures IsEmpty(s) <==> Pending(s) == []
    ensures k != 0 ==> !IsEmpty(s.(head := k, tail := k))
  {
  }

  /**
   * Read as a ring, the number of ready pumps until `head` meets `tail`:
   * 256 when they are equal, so a full ring counts as 256 pending bytes.
   */
  function RingDist(s: Tx): (d: nat)
    ensures 1 <= d <= BUFFER_LEN
  {
    if s.tail > s.head then s.tail as int - s.head as int
    else BUFFER_LEN - (s.head as int - s.tail as int)
  }

  /** The `n` bytes read going round the ring from slot `h`. */
  function RingBytes(buf: seq<uint8>, h: uint8, n: nat): (r: seq<uint8>)
    requires |buf| == BUFFER_LEN
    ensures |r| == n && forall j :: 0 <= j < n ==> r[j] == buf[(h as int + j) % 256]
  {
    seq(n, j requires 0 <= j < n => buf[(h as int + j) % 256])
  }

  /** Stepping an index that is `k` mod 256 gives `k + 1` mod 256, which here is not `t`. */
  lemma OpensRing(x: uint8, t: uint8, k: nat)
    requires x as int == k % 256 && (k + 1) % 256 != t as int
    ensures Inc8(x) as int == (k + 1) % 256 && Inc8(x) != t
  {
    if k % 256 == 255 {
      assert k + 1 == (k / 256 + 1) * 256;
    } else {
      assert k + 1 == (k / 256) * 256 + (k % 256 + 1);
    }
  }

  /** Stepping an index that is `k` mod 256 lands on `t` when `k + 1` is `t` mod 256. */
  lemma ClosesRing(x: uint8, t: uint8, k: nat)
    requires x as int == k % 256 && (k + 1) % 256 == t as int
    ensures Inc8(x) == t
  {
    if k % 256 == 255 {
      assert k + 1 == (k / 256 + 1) * 256;
    } else {
      assert k + 1 == (k / 256) * 256 + (k % 256 + 1);
    }
  }

  /** Fewer than `RingDist` steps from `head` never land on `tail`. */
  lemma RingNoMeet(s: Tx, n: nat)
    requires 0 < n < RingDist(s)
    ensures (s.head as int + n) % 256 != s.tail as int
  {
    var h := s.head as int;
    if h + n < 256 {
      assert (h + n) % 256 == h + n;
    } else {
      assert (h + n) % 256 == h + n - 256;
    }
  }

  /** A ready pump on a non-empty queue whose next head is not `tail` sends one byte and only steps `head`. */
  lemma PumpAdvance(q: Tx)
    requires Wf(q) && !IsEmpty(q) && Inc8(q.head) != q.tail
    ensures Pump(q, false, true) == q.(wire := q.wire + [q.buf[q.head]], cts := false, head := Inc8(q.head))
  {
  }

  /** A ready pump whose next head is `tail` sends one byte and resets both indices. */
  lemma PumpMeet(q: Tx)
    requires Wf(q) && !IsEmpty(q) && Inc8(q.head) == q.tail
    ensures Pump(q, false, true) == q.(wire := q.wire + [q.buf[q.head]], cts := false, head := 0, tail := 0)
  {
  }

  /** Ready pumps fewer than the ring distance send slots `head` onwards round the ring, and never reset. */
  lemma {:induction false} RingSteps(s: Tx, n: nat)
    requires Wf(s) && !IsEmpty(s) && n < RingDist(s)
    ensures Drain(s, n).head as int == (s.head as int + n) % 256
    ensures Drain(s, n).tail == s.tail && Drain(s, n).buf == s.buf
    ensures Drain(s, n).wire == s.wire + RingBytes(s.buf, s.head, n)
    ensures !IsEmpty(Drain(s, n))
  {
    if n > 0 {
      var m := n - 1;
      RingSteps(s, m);
      var q := Drain(s, m);
      RingNextIndex(s, q.head, m);
      DrainStep(s, m + 1);
      NextPumpSends(s, q, m);
    }
  }

  /** A pump that does not bring `head` onto `tail` sends the next byte of the ring and keeps `tail`. */
  lemma NextPumpSends(s: Tx, q: Tx, n: nat)
    requires Wf(q) && !IsEmpty(q) && Inc8(q.head) != q.tail && |s.buf| == BUFFER_LEN
    requires q.buf == s.buf && q.head as int == (s.head as int + n) % 256
    requires q.wire == s.wire + RingBytes(s.buf, s.head, n)
    ensures Pump(q, false, true).wire == s.wire + RingBytes(s.buf, s.head, n + 1)
    ensures Pump(q, false, true).head == Inc8(q.head) && Pump(q, false, true).tail == q.tail
    ensures Pump(q, false, true).buf == s.buf
  {
    PumpAdvance(q);
    SnocRing(s.buf, s.head, n + 1);
    var next := s.buf[(s.head as int + n) % 256];
    assert q.buf[q.head] == next;
    calc {
      Pump(q, false, true).wire;
      q.wire + [next];
      (s.wire + RingBytes(s.buf, s.head, n)) + [next];
      s.wire + (RingBytes(s.buf, s.head, n) + [next]);
    }
  }

  /** The last of `n` ready pumps. */
  lemma DrainStep(s: Tx, n: nat)
    requires Wf(s) && 0 < n
    ensures Drain(s, n) == Pump(Drain(s, n - 1), false, true)
  {
  }

  /** One more byte round the ring. */
  lemma SnocRing(buf: seq<uint8>, h: uint8, n: nat)
    requires |buf| == BUFFER_LEN && 0 < n
    ensures RingBytes(buf, h, n) == RingBytes(buf, h, n - 1) + [buf[(h as int + (n - 1)) % 256]]
  {
  }

  /**
   * Read as a ring, any non-empty queue drains completely: after `RingDist`
   * ready pumps the bytes from `head` round to `tail` are sent in order and
   * both indices are back at 0.
   */
  lemma RingDrains(s: Tx)
    requires Wf(s) && !IsEmpty(s)
    ensures Drain(s, RingDist(s)).wire == s.wire + RingBytes(s.buf, s.head, RingDist(s))
    ensures IsEmpty(Drain(s, RingDist(s)))
  {
    var n := RingDist(s) - 1;
    RingSteps(s, n);
    var q := Drain(s, n);
    RingLastIndex(s, q.head, n);
    DrainStep(s, n + 1);
    LastPumpCloses(s, q, n);
  }

  /** The pump that brings `head` onto `tail` sends the last byte of the ring and resets. */
  lemma LastPumpCloses(s: Tx, q: Tx, n: nat)
    requires Wf(q) && !IsEmpty(q) && Inc8(q.head) == q.tail && |s.buf| == BUFFER_LEN
    requires q.buf == s.buf && q.head as int == (s.head as int + n) % 256
    requires q.wire == s.wire + RingBytes(s.buf, s.head, n)
    ensures Pump(q, false, true).wire == s.wire + RingBytes(s.buf, s.head, n + 1)
    ensures IsEmpty(Pump(q, false, true))
  {
    PumpMeet(q);
    SnocRing(s.buf, s.head, n + 1);
    var last := s.buf[(s.head as int + n) % 256];
    assert q.buf[q.head] == last;
    calc {
      Pump(q, false, true).wire;
      q.wire + [last];
      (s.wire + RingBytes(s.buf, s.head, n)) + [last];
      s.wire + (RingBytes(s.buf, s.head, n) + [last]);
    }
  }

  /** Step `n` round the ring, short of `RingDist`, moves `head` on without meeting `tail`. */
  lemma RingNextIndex(s: Tx, qh: uint8, n: nat)
    requires n + 1 < RingDist(s) && qh as int == (s.head as int + n) % 256
    ensures Inc8(qh) as int == (s.head as int + (n + 1)) % 256 && Inc8(qh) != s.tail
  {
    RingNoMeet(s, n + 1);
    OpensRing(qh, s.tail, s.head as int + n);
  }

  /** Step `RingDist` round the ring meets `tail`. */
  lemma RingLastIndex(s: Tx, qh: uint8, n: nat)
    requires n + 1 == RingDist(s) && qh as int == (s.head as int + n) % 256
    ensures Inc8(qh) == s.tail
  {
    RingMeets(s);
    ClosesRing(qh, s.tail, s.head as int + n);
  }

  /** `RingDist` steps from `head` land exactly on `tail`. */
  lemma RingMeets(s: Tx)
    ensures (s.head as int + RingDist(s)) % 256 == s.tail as int
  {
    var h, t := s.head as int, s.tail as int;
    if t > h {
      assert (h + (t - h)) % 256 == t;
    } else {
      assert (h + (256 - (h - t))) % 256 == t;
    }
  }

  /**
   * A full ring (`head == tail`, not 0) is not read as empty: 256 ready pumps
   * send all 256 slots, from `head` round to `head - 1`, and reset both indices.
   */
  lemma FullRingDrains(s: Tx)
    requires Wf(s) && s.head == s.tail && s.head != 0
    ensures !IsEmpty(s)
    ensures Drain(s, 256).wire == s.wire + s.buf[s.head..] + s.buf[..s.head]
    ensures IsEmpty(Drain(s, 256))
  {
    RingDrains(s);
    assert RingBytes(s.buf, s.head, 256) == s.buf[s.head..] + s.buf[..s.head];
  }

  /**
   * One more byte on a full ring overwrites slot `head` and sets `tail` just
   * past it, so the next ready pump sends only that byte and resets both
   * indices: the other 255 pending bytes are never sent.
   */
  lemma OverflowLosesPending(s: Tx, x: uint8, rtsHigh: bool)
    requires Wf(s) && s.head == s.tail && s.head != 0
    ensures Push(s, x).buf[s.head] == x && Push(s, x).tail == Inc8(s.head)
    ensures Pump(Push(s, x), rtsHigh, true).wire == s.wire + [x]
    ensures IsEmpty(Pump(Push(s, x), rtsHigh, true))
  {
  }

  /** An empty queue makes `send_xmit_buf` a complete no-op. */
  lemma PumpIdle(s: Tx, rtsHigh: bool, udre: bool)
    requires Wf(s) && IsEmpty(s)
    ensures Pump(s, rtsHigh, udre) == s
  {
  }

  /** With UDRE1 clear a non-empty queue only gets CTS driven high. */
  lemma PumpNotReady(s: Tx, rtsHigh: bool)
    requires Wf(s) && !IsEmpty(s)
    ensures Pump(s, rtsHigh, false) == s.(cts := true)
  {
  }

  /**
   * With UDRE1 set a non-empty queue sends its next byte, drops it from the
   * pending bytes, resets to 0/0 when that was the last one, and ends with CTS
   * low.
   */
  lemma PumpSends(s: Tx, rtsHigh: bool)
    requires Inv(s) && !IsEmpty(s)
    ensures Inv(Pump(s, rtsHigh, true))
    ensures Pump(s, rtsHigh, true).wire == s.wire + [Pending(s)[0]]
    ensures Pending(Pump(s, rtsHigh, true)) == Pending(s)[1..]
    ensures |Pending(s)| == 1 ==> IsEmpty(Pump(s, rtsHigh, true))
    ensures !Pump(s, rtsHigh, true).cts && Pump(s, rtsHigh, true).buf == s.buf
  {
  }

  /** The level read from PINB7 never changes what `send_xmit_buf` does. */
  lemma PumpIgnoresRts(s: Tx, udre: bool)
    requires Wf(s)
    ensures Pump(s, true, udre) == Pump(s, false, udre)
  {
  }

  /** One call of `send_xmit_buf` writes nothing or exactly `buf[head]`. */
  lemma PumpAtMostOne(s: Tx, rtsHigh: bool, udre: bool)
    requires Wf(s)
    ensures Pump(s, rtsHigh, udre).wire == s.wire
         || Pump(s, rtsHigh, udre).wire == s.wire + [s.buf[s.head]]
  {
  }

  /** Taking one more element off the front of a sequence. */
  lemma SliceStep(p: seq<uint8>, n: nat)
    requires 0 < n <= |p|
    ensures p[n - 1..][0] == p[n - 1] && p[n - 1..][1..] == p[n..]
    ensures p[..n] == p[..n - 1] + [p[n - 1]]
  {
  }

  /**
   * `n` pumps with UDRE1 set, on an ordered queue with at least `n` pending
   * bytes, send the first `n` of them in order and keep the queue ordered.
   */
  lemma {:induction false} DrainDelivers(s: Tx, n: nat)
    requires Inv(s) && n <= |Pending(s)|
    ensures Inv(Drain(s, n))
    ensures Drain(s, n).wire == s.wire + Pending(s)[..n]
    ensures Pending(Drain(s, n)) == Pending(s)[n..]
    ensures Drain(s, n).buf == s.buf
  {
    if n > 0 {
      DrainDelivers(s, n - 1);
      var q, p := Drain(s, n - 1), Pending(s);
      assert Drain(s, n) == Pump(q, false, true);
      PumpSends(q, false);
      SliceStep(p, n);
    }
  }

  /**
   * FIFO round trip: from a reset queue, `k <= 255` bytes pushed and then
   * pumped `k` times with UDRE1 set come out on the wire exactly, in order;
   * head <= tail holds after every pump and the queue ends at 0/0.
   */
  lemma FifoRoundTrip(s: Tx, data: seq<uint8>)
    requires IsReset(s) && |data| < BUFFER_LEN
    ensures Inv(PushAll(s, data)) && Pending(PushAll(s, data)) == data
    ensures Drain(PushAll(s, data), |data|).wire == s.wire + data
    ensures IsEmpty(Drain(PushAll(s, data), |data|))
    ensures forall j :: 0 <= j <= |data| ==> Inv(Drain(PushAll(s, data), j))
  {
    PushAllPending(s, data);
    var q := PushAll(s, data);
    forall j | 0 <= j <= |data|
      ensures Inv(Drain(q, j))
    {
      DrainDelivers(q, j);
    }
    DrainDelivers(q, |data|);
    assert Pending(q)[..|data|] == data;
  }

  /**
   * The globals of common/uart.c that the transmit path uses, updated in
   * place. `wire` records every byte written to UDR1.
   */
  class Transmitter {
    const xmitBuf: array<uint8>
    var head: uint8
    var tail: uint8
    var cts: bool
    ghost var wire: seq<uint8>

    ghost predicate Valid()
      reads this
    {
      xmitBuf.Length == BUFFER_LEN
    }

    /** The state as a `Tx` value. */
    ghost function State(): (s: Tx)
      reads this, xmitBuf
      requires Valid()
      ensures Wf(s)
    {
      Tx(xmitBuf[..], head, tail, cts, wire)
    }

    /** Static initialisation: zeroed buffer, both indices 0, PORTD bit 5 low, nothing sent. */
    constructor ()
      ensures Valid() && fresh(xmitBuf)
      ensures State() == Tx(seq(BUFFER_LEN, _ => 0), 0, 0, false, [])
    {
      xmitBuf := new uint8[BUFFER_LEN](_ => 0);
      head, tail, cts := 0, 0, false;
      wire := [];
    }

    /**
     * The part of `uart_service_init` that touches this state: CTS is set
     * high. The baud-rate and frame-format register writes are not modelled.
     */
    method ServiceInit()
      requires Valid()
      modifies this`cts
      ensures State() == old(State()).(cts := true)
    {
      cts := true;
    }

    /** `uart_cts_enable`: drive CTS high. */
    method CtsEnable()
      requires Valid()
      modifies this`cts
      ensures cts
      ensures State() == old(State()).(cts := true)
    {
      cts := true;
    }

    /** `uart_cts_disable`: drive CTS low. */
    method CtsDisable()
      requires Valid()
      modifies this`cts
      ensures !cts
      ensures State() == old(State()).(cts := false)
    {
      cts := false;
    }

    /** `uart_xmit`: append one byte at `tail`. */
    method Xmit(data: uint8)
      requires Valid()
      modifies this`tail, xmitBuf
      ensures State() == Push(old(State()), data)
      ensures head == old(head)
      ensures forall i :: 0 <= i < BUFFER_LEN && i != old(tail) as int ==> xmitBuf[i] == old(xmitBuf[i])
    {
      if tail as int != BUFFER_LEN {
        xmitBuf[tail] := data;
        tail := Inc8(tail);
      }
    }

    /** `uart_xmit_str`: `uart_xmit` on `data[0]`, ..., `data[size - 1]`, in order. */
    method XmitStr(data: seq<uint8>, size: uint8)
      requires Valid() && size as int <= |data|
      modifies this`tail, xmitBuf
      ensures State() == PushAll(old(State()), data[..size])
    {
      var i: uint8 := 0;
      while i < size
        invariant i <= size
        invariant State() == PushAll(old(State()), data[..i])
      {
        Xmit(data[i]);
        assert data[..i + 1][..i] == data[..i];
        i := i + 1;
      }
    }

    /** `send_xmit_buf`: one non-blocking step of the drain. */
    method SendXmitBuf(rtsHigh: bool, udre: bool)
      requires Valid()
      modifies this
      ensures State() == Pump(old(State()), rtsHigh, udre)
    {
      // The early return for a high RTS input is commented out in the
      // firmware, so `rtsHigh` is read and ignored.
      if head == 0 && tail == 0 {
        return;
      }
      CtsEnable();
      if !udre {
        return;
      }
      wire := wire + [xmitBuf[head]];
      head := Inc8(head);
      if head == tail {
        tail := 0;
        head := 0;
      }
      CtsDisable();
    }
  }
}
