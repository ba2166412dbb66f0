/**
 * The `get_buffer` transfer: open a camera buffer as DNG, read it in chunks
 * of up to 65536 bytes until a read returns 0, adding the sizes up in a
 * `uint32_t`, and close it.
 *
 * The reads are given as the successive sizes `pslr_buffer_read` returns;
 * every read past the listed ones returns 0.
 */
module BufferTransfer {
  import opened Protocol

  /** `sizeof (buf)` of the read buffer. */
  const ReadSize: int := 65536

  const Modulus: int := 0x1_0000_0000

  /** The size the read number `i` (from 0) returns. */
  function ChunkAt(chunks: seq<u32>, i: nat): u32 {
    if i < |chunks| then chunks[i] else 0
  }

  /** The number of reads the loop makes: every read up to and including the first that returns 0. */
  function ReadCount(chunks: seq<u32>): (n: nat)
    ensures 1 <= n <= |chunks| + 1
    ensures ChunkAt(chunks, n - 1) == 0
    ensures forall i :: 0 <= i < n - 1 ==> chunks[i] != 0
  {
    if chunks == [] || chunks[0] == 0 then 1 else 1 + ReadCount(chunks[1..])
  }

  function Sum(s: seq<u32>): nat {
    if s == [] then 0 else Sum(s[..|s| - 1]) + s[|s| - 1]
  }

  /** `n` calls of `pslr_buffer_read` on `h`. */
  function ReadCalls(h: Handle, n: nat): (r: seq<DriverCall>)
    ensures |r| == n
    ensures forall i :: 0 <= i < n ==> r[i] == BufferRead(h, ReadSize)
  {
    if n == 0 then [] else ReadCalls(h, n - 1) + [BufferRead(h, ReadSize)]
  }

  /**
   * The `while (1)` loop: read until a read returns 0. Returns the number of
   * reads, the `uint32_t` total `current` and the calls made.
   */
  method ReadToEnd(h: Handle, chunks: seq<u32>) returns (count: nat, current: u32, calls: seq<DriverCall>)
    ensures count == ReadCount(chunks)
    ensures current == Sum(chunks[..count - 1]) % Modulus
    ensures calls == ReadCalls(h, count)
  {
    count := 0;
    current := 0;
    calls := [];
    while true
      invariant count <= |chunks|
      invariant forall i :: 0 <= i < count ==> chunks[i] != 0
      invariant current == Sum(chunks[..count]) % Modulus
      invariant calls == ReadCalls(h, count)
      decreases |chunks| - count
    {
      var bytes := ChunkAt(chunks, count);
      calls := calls + [BufferRead(h, ReadSize)];
      if bytes == 0 {
        ReadsBeforeZero(chunks, count);
        count := count + 1;
        break;
      }
      SumStep(chunks, count);
      current := (current + bytes) % Modulus;
      count := count + 1;
    }
  }

  /** When the read number `k` is the first to return 0, the loop makes `k + 1` reads. */
  lemma {:induction false} ReadsBeforeZero(chunks: seq<u32>, k: nat)
    requires k <= |chunks| && ChunkAt(chunks, k) == 0
    requires forall i :: 0 <= i < k ==> chunks[i] != 0
    ensures ReadCount(chunks) == k + 1
  {
    if k > 0 {
      assert ChunkAt(chunks[1..], k - 1) == 0;
      ReadsBeforeZero(chunks[1..], k - 1);
    }
  }

  /** A nonzero read adds its size to the `uint32_t` total. */
  lemma SumStep(chunks: seq<u32>, k: nat)
    requires k < |chunks|
    ensures (Sum(chunks[..k]) % Modulus + chunks[k]) % Modulus == Sum(chunks[..k + 1]) % Modulus
  {
    assert chunks[..k + 1][..k] == chunks[..k];
    assert Sum(chunks[..k + 1]) == Sum(chunks[..k]) + chunks[k];
    ModuloAdd(Sum(chunks[..k]), chunks[k]);
  }

  lemma ModuloAdd(a: nat, b: nat)
    ensures (a % Modulus + b) % Modulus == (a + b) % Modulus
  {
    var q := a / Modulus;
    assert a == q * Modulus + a % Modulus;
    assert a + b == (a % Modulus + b) + q * Modulus;
  }

  /** What the transfer replies and which calls it makes. */
  datatype Transfer = Transfer(status: int, msg: string, calls: seq<DriverCall>)

  /**
   * `get_buffer` with the camera connected, given what `pslr_buffer_open`
   * returns and the sizes the reads return.
   */
  function TransferSpec(h: Handle, bufno: int, openResult: int, chunks: seq<u32>): Transfer {
    var open := BufferOpen(h, bufno, Dng, 0);
    if openResult != 0 then Transfer(1, "can't open buffer", [open])
    else Transfer(0, "open buffer", [open, BufferGetSize(h)] + ReadCalls(h, ReadCount(chunks)) + [BufferClose(h)])
  }

  method TransferBuffer(h: Handle, bufno: int, openResult: int, chunks: seq<u32>)
    returns (status: int, msg: string, calls: seq<DriverCall>)
    ensures Transfer(status, msg, calls) == TransferSpec(h, bufno, openResult, chunks)
  {
    calls := [BufferOpen(h, bufno, Dng, 0)];
    if openResult != 0 {
      status, msg := 1, "can't open buffer";
    } else {
      calls := calls + [BufferGetSize(h)];
      status, msg := 0, "open buffer";
      var count, current, readCalls := ReadToEnd(h, chunks);
      calls := calls + readCalls + [BufferClose(h)];
    }
  }

  /** A failed open ends the transfer at once: `pslr_buffer_close` is not called. */
  lemma OpenFailureNeverCloses(h: Handle, bufno: int, openResult: int, chunks: seq<u32>)
    requires openResult != 0
    ensures var t := TransferSpec(h, bufno, openResult, chunks);
      t.status == 1 && t.msg == "can't open buffer" && BufferClose(h) !in t.calls
  {
  }

  /**
   * An opened buffer is read up to the first empty read and closed exactly
   * once, as the last call.
   */
  lemma OpenedBufferClosedOnce(h: Handle, bufno: int, chunks: seq<u32>)
    ensures var t := TransferSpec(h, bufno, 0, chunks);
      && t.status == 0 && t.msg == "open buffer"
      && t.calls[|t.calls| - 1] == BufferClose(h)
      && multiset(t.calls)[BufferClose(h)] == 1
      && multiset(t.calls)[BufferRead(h, ReadSize)] == ReadCount(chunks)
  {
    var n := ReadCount(chunks);
    var rs := ReadCalls(h, n);
    ReadCallsCount(h, n);
    var t := TransferSpec(h, bufno, 0, chunks);
    assert t.calls == [BufferOpen(h, bufno, Dng, 0), BufferGetSize(h)] + rs + [BufferClose(h)];
    assert multiset(t.calls) == multiset{BufferOpen(h, bufno, Dng, 0), BufferGetSize(h)} + multiset(rs) + multiset{BufferClose(h)};
  }

  lemma {:induction false} ReadCallsCount(h: Handle, n: nat)
    ensures multiset(ReadCalls(h, n))[BufferRead(h, ReadSize)] == n
    ensures multiset(ReadCalls(h, n))[BufferClose(h)] == 0
  {
    if n > 0 {
      ReadCallsCount(h, n - 1);
      assert ReadCalls(h, n) == ReadCalls(h, n - 1) + [BufferRead(h, ReadSize)];
    }
  }

  /**
   * For sizes that end with the only 0, the loop reads each of them once and
   * `current` is the sum of the nonzero sizes, modulo 2^32.
   */
  lemma EndsWithZero(chunks: seq<u32>)
    requires chunks != [] && chunks[|chunks| - 1] == 0
    requires forall i :: 0 <= i < |chunks| - 1 ==> chunks[i] != 0
    ensures ReadCount(chunks) == |chunks|
    ensures Sum(chunks[..ReadCount(chunks) - 1]) == Sum(chunks)
  {
    var n := ReadCount(chunks);
    assert n == |chunks|;
    assert Sum(chunks) == Sum(chunks[..n - 1]) + chunks[n - 1];
  }
}
