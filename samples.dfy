/**
 * The process-wide scratch buffer of 16-bit samples and the routine that fills
 * it from a Lua argument (`lds_checksamples`).
 */
module Samples {
  import opened Wrappers

  const INT16_MIN: int := -0x8000
  const INT16_MAX: int := 0x7FFF

  /** Size of a C `short` in bytes. */
  const SHORT_BYTES: nat := 2

  /** 2^64: both `size_t` and `lua_Integer` are 64 bits wide. */
  const SIZE_MODULUS: nat := 0x1_0000_0000_0000_0000

  /** A C `short`. */
  newtype int16 = x: int | -0x8000 <= x < 0x8000

  predicate InRange(x: int) {
    INT16_MIN <= x <= INT16_MAX
  }

  /** The Lua value found at the sample argument's stack slot. */
  datatype SampleArg =
    | Table(values: seq<int>)
      /** a light userdata; `next` is the following argument when it is an integer */
    | LightUserdata(address: nat, next: Option<int>)
    | OtherArg

  /** What `lds_checksamples` returns when it returns normally. */
  datatype SampleView =
    | InBuffer(count: nat)                   // `state.buffer` holding `count` samples
    | Pointer(address: nat, count: nat)      // the caller's own memory (address 0 is NULL), unchecked
    | Null                                   // a NULL pointer

  datatype SampleError =
    | OutOfRange(index: nat, value: int)     // "Sample #index (value) is out of range [-32768,32767]"
    | CountNotInteger                        // `luaL_checkinteger` on the argument after a light userdata

  /** The 0-based position of the first table element outside [INT16_MIN, INT16_MAX], or |vs| if none is. */
  function FirstOutOfRange(vs: seq<int>): (i: nat)
    ensures i <= |vs|
    ensures forall j :: 0 <= j < i ==> InRange(vs[j])
    ensures i < |vs| ==> !InRange(vs[i])
  {
    if vs == [] || !InRange(vs[0]) then 0 else 1 + FirstOutOfRange(vs[1..])
  }

  /** The samples a range-checked table holds, as C shorts. */
  function Narrow(vs: seq<int>): (s: seq<int16>)
    requires FirstOutOfRange(vs) == |vs|
    ensures |s| == |vs|
    ensures forall j :: 0 <= j < |vs| ==> s[j] as int == vs[j]
  {
    if vs == [] then [] else [vs[0] as int16] + Narrow(vs[1..])
  }

  /** The conversion of a `lua_Integer` to `size_t`: two's-complement wrap-around. */
  function ToSize(n: int): (c: nat)
    ensures c < SIZE_MODULUS
    ensures 0 <= n < SIZE_MODULUS ==> c == n
    ensures -(SIZE_MODULUS as int) <= n < 0 ==> c == n + SIZE_MODULUS
  {
    n % SIZE_MODULUS
  }

  function Pow2(k: nat): (p: nat)
    ensures p >= 1
  {
    if k == 0 then 1 else 2 * Pow2(k - 1)
  }

  /** The `while` part of the do-while at line 32: double `s` until it reaches `n`. */
  function DoubleUntil(s: nat, n: nat): (r: nat)
    requires s >= 1
    ensures r >= s && r >= n
    decreases n - s
  {
    if s >= n then s else DoubleUntil(2 * s, n)
  }

  /** `bufferSize` after a table of `n` samples, when it was `size` before. */
  function NewCapacity(size: nat, n: nat): (r: nat)
    ensures r >= n && r >= size
    ensures n <= size ==> r == size
    ensures r == 0 <==> size == 0 && n == 0
  {
    if n <= size then size else DoubleUntil(2 * (if size == 0 then 1 else size), n)
  }

  /** Capacity after a series of table calls of lengths `counts`. */
  function CapacityAfter(size: nat, counts: seq<nat>): nat
    decreases |counts|
  {
    if counts == [] then size else CapacityAfter(NewCapacity(size, counts[0]), counts[1..])
  }

  lemma {:induction false} DoublingShape(s: nat, n: nat, m: nat, j: nat)
    requires m >= 1 && j >= 1 && s == m * Pow2(j)
    requires j == 1 || m * Pow2(j - 1) < n
    ensures exists k: nat :: k >= j && DoubleUntil(s, n) == m * Pow2(k) && (k == 1 || m * Pow2(k - 1) < n)
    decreases n - s
  {
    if s < n {
      assert 2 * s == m * Pow2(j + 1) by {
        assert Pow2(j + 1) == 2 * Pow2(j);
      }
      DoublingShape(2 * s, n, m, j + 1);
    } else {
      assert DoubleUntil(s, n) == m * Pow2(j);
    }
  }

  /**
   * Growth is by doubling: the new size is max(size, 1) * 2^k for the least
   * k >= 1 that reaches n.
   */
  lemma GrowthIsLeastDoubling(size: nat, n: nat)
    requires size < n
    ensures var m := if size == 0 then 1 else size;
            exists k: nat :: k >= 1 && NewCapacity(size, n) == m * Pow2(k) && (k == 1 || m * Pow2(k - 1) < n)
  {
    var m := if size == 0 then 1 else size;
    assert Pow2(1) == 2;
    DoublingShape(2 * m, n, m, 1);
  }

  /** Doubling from below 2n never overshoots 2n, and stops at the first size at least n. */
  lemma {:induction false} DoublingOvershoot(s: nat, n: nat)
    requires s >= 1 && s <= 2 * n && s / 2 < n
    ensures DoubleUntil(s, n) <= 2 * n
    ensures DoubleUntil(s, n) / 2 < n
    decreases n - s
  {
    if s < n {
      DoublingOvershoot(2 * s, n);
    }
  }

  /** Growth never more than doubles the request. */
  lemma GrowthBound(size: nat, n: nat)
    requires size < n
    ensures NewCapacity(size, n) <= 2 * n
    ensures n >= 2 ==> NewCapacity(size, n) / 2 < n
  {
    var m := if size == 0 then 1 else size;
    if m < n {
      DoublingOvershoot(2 * m, n);
    } else {
      assert n == 1 && NewCapacity(size, n) == 2;
    }
  }

  /** After any series of table calls the capacity covers every request and never shrank. */
  lemma {:induction false} CapacityCoversEveryRequest(size: nat, counts: seq<nat>)
    ensures CapacityAfter(size, counts) >= size
    ensures forall i :: 0 <= i < |counts| ==> CapacityAfter(size, counts) >= counts[i]
    decreases |counts|
  {
    if counts != [] {
      var next := NewCapacity(size, counts[0]);
      CapacityCoversEveryRequest(next, counts[1..]);
      forall i | 0 <= i < |counts| ensures CapacityAfter(size, counts) >= counts[i] {
        if i > 0 {
          assert counts[i] == counts[1..][i - 1];
        }
      }
    }
  }

  /** The spec of `lds_checksamples` on a table, when `bufferSize` was `size`. */
  function TableOutcome(vs: seq<int>, size: nat): Result<SampleView, SampleError>
  {
    var i := FirstOutOfRange(vs);
    if i < |vs| then Err(OutOfRange(i + 1, vs[i]))
    // `state.buffer` is still NULL when nothing was ever allocated
    else if NewCapacity(size, |vs|) == 0 then Ok(Null)
    else Ok(InBuffer(|vs|))
  }

  /** The spec of `lds_checksamples` for any argument. */
  function Outcome(arg: SampleArg, size: nat): Result<SampleView, SampleError>
  {
    match arg
    case Table(vs) => TableOutcome(vs, size)
    case LightUserdata(address, next) =>
      // `luaL_checkinteger` runs before `lua_touserdata`; a NULL userdata is returned as NULL
      if next.None? then Err(CountNotInteger)
      else if address == 0 then Ok(Null)
      else Ok(Pointer(address, ToSize(next.value)))
    case OtherArg => Ok(Null)
  }

  /** A table is accepted exactly when all its elements are 16-bit, and then all of it is buffered. */
  lemma TableAcceptedIff(vs: seq<int>, size: nat)
    ensures Outcome(Table(vs), size).Ok? <==> forall j :: 0 <= j < |vs| ==> InRange(vs[j])
    ensures Outcome(Table(vs), size).Ok? && (size > 0 || |vs| > 0) ==> Outcome(Table(vs), size) == Ok(InBuffer(|vs|))
  {
  }

  /** The first out-of-range element is reported by its 1-based index and its value. */
  lemma TableRejectsFirstBad(vs: seq<int>, size: nat, i: nat)
    requires i < |vs| && !InRange(vs[i])
    requires forall j :: 0 <= j < i ==> InRange(vs[j])
    ensures Outcome(Table(vs), size) == Err(OutOfRange(i + 1, vs[i]))
  {
  }

  /** An empty table on a buffer that was never grown yields NULL, which the callers report as a bad argument. */
  lemma EmptyTableBeforeFirstGrowth()
    ensures Outcome(Table([]), 0) == Ok(Null)
    ensures forall size: nat :: size > 0 ==> Outcome(Table([]), size) == Ok(InBuffer(0))
  {
  }

  /**
   * A non-NULL light userdata is never validated: any count is taken, a
   * negative one wraps around. A NULL one yields NULL, whatever the count.
   */
  lemma PointerUnchecked(address: nat, n: int, size: nat)
    requires address != 0
    requires -(SIZE_MODULUS as int) <= n < SIZE_MODULUS
    ensures Outcome(LightUserdata(0, Some(n)), size) == Ok(Null)
    ensures Outcome(LightUserdata(address, Some(n)), size).Ok?
    ensures n >= 0 ==> Outcome(LightUserdata(address, Some(n)), size) == Ok(Pointer(address, n))
    ensures n < 0 ==> Outcome(LightUserdata(address, Some(n)), size) == Ok(Pointer(address, n + SIZE_MODULUS))
  {
  }

  // ---- The allocation at line 33, which passes the sample count as the byte count ----

  /** Bytes requested for `size` samples as written: the sample count itself. */
  function ReallocBytesAsWritten(size: nat): nat
  {
    size
  }

  /** Bytes requested for `size` samples as intended: one `short` per sample. */
  function ReallocBytes(size: nat): nat
  {
    size * SHORT_BYTES
  }

  /** How many shorts fit in an allocation of `bytes` bytes. */
  function ShortsIn(bytes: nat): nat
  {
    bytes / SHORT_BYTES
  }

  /** As written, every growth for two or more samples allocates room for fewer shorts than the loop writes. */
  lemma AsWrittenAllocationTooSmall(size: nat, n: nat)
    requires size < n && n >= 2
    ensures ShortsIn(ReallocBytesAsWritten(NewCapacity(size, n))) < n
  {
    GrowthBound(size, n);
  }

  /**
   * As written, the overflow needs no growth either: with `bufferSize` below
   * twice the table length, the earlier allocation holds fewer than n shorts.
   */
  lemma AsWrittenOverflowWithoutGrowth(size: nat, n: nat)
    requires n <= size < 2 * n
    ensures NewCapacity(size, n) == size
    ensures ShortsIn(ReallocBytesAsWritten(NewCapacity(size, n))) < n
  {
  }

  /** A two-sample table on a fresh buffer: capacity 2, 2 bytes, room for 1 short; `buffer[1]` is written outside. */
  lemma AsWrittenTwoSamples()
    ensures NewCapacity(0, 2) == 2
    ensures ShortsIn(ReallocBytesAsWritten(NewCapacity(0, 2))) == 1
  {
  }

  /** With the corrected request the allocation holds exactly `bufferSize` shorts, enough for the table. */
  lemma CorrectedAllocationCovers(size: nat, n: nat)
    ensures ShortsIn(ReallocBytes(NewCapacity(size, n))) == NewCapacity(size, n)
    ensures ShortsIn(ReallocBytes(NewCapacity(size, n))) >= n
  {
  }

  /**
   * The `state.bufferSize` / `state.buffer` pair. The array holds `bufferSize`
   * shorts (the corrected allocation); `bufferSize == 0` is the NULL buffer.
   */
  class SampleBuffer {
    var bufferSize: nat
    var buffer: array<int16>

    ghost predicate Valid()
      reads this
    {
      buffer.Length == bufferSize
    }

    /** The zero-initialised static `state`. */
    constructor ()
      ensures Valid() && bufferSize == 0 && fresh(buffer)
    {
      bufferSize := 0;
      buffer := new int16[0];
    }

    /** `lds_checksamples`: grow the buffer if needed, then copy and range-check a table, or pass a pointer through. */
    method CheckSamples(arg: SampleArg) returns (r: Result<SampleView, SampleError>)
      requires Valid()
      modifies this, buffer
      ensures Valid()
      ensures r == Outcome(arg, old(bufferSize))
      ensures arg.Table? ==> bufferSize == NewCapacity(old(bufferSize), |arg.values|)
      ensures arg.Table? && bufferSize == old(bufferSize) ==> buffer == old(buffer)
      ensures fresh(buffer) || buffer == old(buffer)
      // every element before the first bad one (all of them when none is) has been written
      ensures arg.Table? ==>
                forall j :: 0 <= j < FirstOutOfRange(arg.values) ==> buffer[j] as int == arg.values[j]
      // the rest of the old contents survive (realloc keeps them)
      ensures arg.Table? ==>
                forall j :: FirstOutOfRange(arg.values) <= j < old(bufferSize) ==> buffer[j] == old(buffer[j])
      ensures !arg.Table? ==> bufferSize == old(bufferSize) && buffer == old(buffer)
      ensures !arg.Table? ==> buffer[..] == old(buffer[..])
    {
      match arg
      case Table(vs) =>
        var count := |vs|;
        if bufferSize < count {
          var size := bufferSize + (if bufferSize == 0 then 1 else 0);
          size := size * 2;
          while size < count
            invariant size >= 1
            invariant DoubleUntil(size, count) == NewCapacity(bufferSize, count)
            decreases count - size
          {
            size := size * 2;
          }
          CorrectedAllocationCovers(bufferSize, count);
          var grown := new int16[ShortsIn(ReallocBytes(size))];
          forall j | 0 <= j < buffer.Length {
            grown[j] := buffer[j];
          }
          bufferSize, buffer := size, grown;
        }
        var buf := buffer;
        var i := 0;
        while i < count
          invariant 0 <= i <= count <= buf.Length
          invariant buffer == buf && Valid()
          invariant forall j :: 0 <= j < i ==> InRange(vs[j]) && buf[j] as int == vs[j]
          invariant forall j :: i <= j < old(bufferSize) ==> buf[j] == old(buffer[j])
        {
          var x := vs[i];
          if x < INT16_MIN || x > INT16_MAX {
            return Err(OutOfRange(i + 1, x));
          }
          buf[i] := x as int16;
          i := i + 1;
        }
        r := if bufferSize == 0 then Ok(Null) else Ok(InBuffer(count));
      case LightUserdata(address, next) =>
        r := if next.None? then Err(CountNotInteger)
             else if address == 0 then Ok(Null)
             else Ok(Pointer(address, ToSize(next.value)));
      case OtherArg =>
        r := Ok(Null);
    }
  }
}
