/**
 * What the two compute passes (rust/src/compute_pipeline.rs, rust/src/minimization.rs) share:
 * bytes and 32-bit words as `bytemuck` lays them out, the `(n as u32 + 63) / 64` work-group count,
 * and a buffer that is written, mapped for reading, viewed and unmapped, in the states wgpu allows.
 */
module Gpu {
  import opened Wrappers

  type Byte = x: int | 0 <= x < 256

  const U32_LIMIT: nat := 0x1_0000_0000

  /** A `u32`. */
  type U32 = x: int | 0 <= x < 0x1_0000_0000

  /** Threads per work-group of the compute shaders (`@workgroup_size(64)`). */
  const WORKGROUP_SIZE: nat := 64

  /** Why a pass ends in a panic instead of returning. */
  datatype GpuError =
    | InvalidProcessType   // `panic!("Invalid process type")`
    | DispatchOverflow     // `coords.len() as u32 + 63` overflows
    | ReadbackFailed       // `panic!("Failed to read result buffer")`
    | ShortChunk           // `chunk[1]` or `chunk[2]` of a last chunk shorter than three

  /** `n as u32`: the low 32 bits of a `usize`. */
  function AsU32(n: nat): (r: U32)
    ensures n < U32_LIMIT ==> r == n
  {
    n % U32_LIMIT
  }

  /** `(n as u32 + 63) / 64`, the work-group count of a dispatch over n atoms; the `u32` addition panics when it overflows. */
  function WorkGroups(n: nat): Result<nat, GpuError>
  {
    var m := AsU32(n);
    if m + 63 >= U32_LIMIT then Err(DispatchOverflow) else Ok((m + 63) / WORKGROUP_SIZE)
  }

  /**
   * For every atom count that fits a `u32` with room for the rounding, the count is the least
   * number of 64-thread groups that covers every atom; no atoms, no groups.
   */
  lemma WorkGroupsCover(n: nat)
    requires n + 63 < U32_LIMIT
    ensures WorkGroups(n).Ok?
    ensures WORKGROUP_SIZE * WorkGroups(n).value >= n
    ensures WORKGROUP_SIZE * WorkGroups(n).value < n + WORKGROUP_SIZE
    ensures n == 0 <==> WorkGroups(n).value == 0
  {
    var g := (n + 63) / 64;
    assert 64 * g <= n + 63 < 64 * g + 64;
  }

  /** The addition overflows exactly for the last 63 values of the truncated count. */
  lemma WorkGroupsOverflow(n: nat)
    ensures WorkGroups(n).Err? <==> n % U32_LIMIT > U32_LIMIT - 64
  {
  }

  /** The count sees only the low 32 bits: 2^32 more atoms dispatch the same groups, and 2^32 atoms none. */
  lemma WorkGroupsTruncated(n: nat)
    ensures WorkGroups(n + U32_LIMIT) == WorkGroups(n)
    ensures WorkGroups(U32_LIMIT) == Ok(0)
  {
    assert (n + U32_LIMIT) % U32_LIMIT == n % U32_LIMIT;
  }

  /** A `u32` as its four little-endian bytes (what `bytemuck` copies on a little-endian target). */
  function Le32(x: U32): (bs: seq<Byte>)
    ensures |bs| == 4
  {
    [x % 256, x / 256 % 256, x / 65536 % 256, x / 16777216]
  }

  /** The `u32` four little-endian bytes hold. */
  function Le32Value(bs: seq<Byte>): (x: U32)
    requires |bs| == 4
  {
    var b0, b1, b2, b3: int := bs[0], bs[1], bs[2], bs[3];
    b0 + 256 * b1 + 65536 * b2 + 16777216 * b3
  }

  /** Encoding a word and reading it back gives the word. */
  lemma Le32RoundTrip(x: U32)
    ensures Le32Value(Le32(x)) == x
  {
    var b0, b1, b2, b3 := x % 256, x / 256 % 256, x / 65536 % 256, x / 16777216;
    assert x / 256 == b1 + 256 * (x / 65536);
    assert x / 65536 == b2 + 256 * b3;
  }

  /** Every four bytes are the encoding of the word they hold. */
  lemma Le32Decode(bs: seq<Byte>)
    requires |bs| == 4
    ensures Le32(Le32Value(bs)) == bs
  {
    var x := Le32Value(bs);
    var b0, b1, b2, b3: int := bs[0], bs[1], bs[2], bs[3];
    assert x % 256 == b0 && x / 256 == b1 + 256 * b2 + 65536 * b3;
    assert x / 65536 == b2 + 256 * b3;
    assert x / 16777216 == b3;
  }

  /** Where a buffer is in its mapping cycle. */
  datatype MapState = Unmapped | Mapped | MapFailed

  /** The steps taken on a buffer, in the order they happened. */
  datatype BufferOp =
    | DispatchOp       // the compute pass wrote the buffer
    | CopyOp           // `copy_buffer_to_buffer` into the buffer
    | MapOp(ok: bool)  // `map_async(Read)` and the outcome its callback reported
    | ViewOp           // `get_mapped_range`
    | DropOp           // a mapped-range view dropped
    | UnmapOp          // `unmap`

  /**
   * A wgpu buffer of elements of one type: its contents, the bytes per element, its mapping state,
   * the number of live mapped-range views and the steps taken on it. The preconditions are the
   * rules wgpu enforces: no writes while mapped, views only of a mapped buffer, no unmap while a
   * view is alive.
   */
  class MappableBuffer<T> {
    var contents: seq<T>
    const elementSize: nat
    var state: MapState
    var views: nat
    var ops: seq<BufferOp>

    /** The buffer's size in bytes. */
    function Size(): nat
      reads this
    {
      |contents| * elementSize
    }

    /** `create_buffer_init` (or `create_buffer`, with the zeroed contents given): an unmapped buffer. */
    constructor (contents: seq<T>, elementSize: nat)
      ensures this.contents == contents && this.elementSize == elementSize
      ensures state == Unmapped && views == 0 && ops == []
    {
      this.contents := contents;
      this.elementSize := elementSize;
      state := Unmapped;
      views := 0;
      ops := [];
    }

    /** The compute pass stores its results in the buffer, which keeps its size. */
    method Dispatch(values: seq<T>)
      requires state != Mapped && |values| == |contents|
      modifies this
      ensures contents == values && state == old(state) && views == old(views)
      ensures ops == old(ops) + [DispatchOp]
    {
      contents := values;
      ops := ops + [DispatchOp];
    }

    /** `copy_buffer_to_buffer(source, 0, this, 0, bytes)`: the copy must cover both buffers exactly. */
    method CopyFrom(source: seq<T>, bytes: nat)
      requires state != Mapped && |source| * elementSize == bytes && bytes == Size()
      requires elementSize > 0
      modifies this
      ensures contents == source && state == old(state) && views == old(views)
      ensures ops == old(ops) + [CopyOp]
    {
      contents := source;
      ops := ops + [CopyOp];
    }

    /** `map_async(Read)` followed by `poll(Wait)`: the buffer is mapped exactly when the callback reports success. */
    method MapAsync(ok: bool)
      requires state == Unmapped
      modifies this
      ensures state == (if ok then Mapped else MapFailed)
      ensures contents == old(contents) && views == old(views)
      ensures ops == old(ops) + [MapOp(ok)]
    {
      state := if ok then Mapped else MapFailed;
      ops := ops + [MapOp(ok)];
    }

    /** `get_mapped_range`: a view of the whole contents, alive until dropped. */
    method GetMappedRange() returns (view: seq<T>)
      requires state == Mapped
      modifies this
      ensures view == contents
      ensures views == old(views) + 1
      ensures contents == old(contents) && state == old(state)
      ensures ops == old(ops) + [ViewOp]
    {
      view := contents;
      views := views + 1;
      ops := ops + [ViewOp];
    }

    /** Dropping a mapped-range view. */
    method DropView()
      requires views > 0
      modifies this
      ensures views == old(views) - 1
      ensures contents == old(contents) && state == old(state)
      ensures ops == old(ops) + [DropOp]
    {
      views := views - 1;
      ops := ops + [DropOp];
    }

    /** `unmap`: allowed only once every view is dropped. */
    method Unmap()
      requires views == 0
      modifies this
      ensures state == Unmapped
      ensures contents == old(contents) && views == 0
      ensures ops == old(ops) + [UnmapOp]
    {
      state := Unmapped;
      ops := ops + [UnmapOp];
    }
  }
}
