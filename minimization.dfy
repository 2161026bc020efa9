/**
 * `minimize_energy` of rust/src/minimization.rs without its wgpu plumbing: the positions are
 * flattened to `f32` values, written to one buffer the shader updates in place, and, when the
 * mapping succeeds, the caller's list is cleared and rebuilt from the values three at a time.
 * The buffer is unmapped on both paths. The `f64 -> f32` conversion and the shader are parameters.
 */
module Minimization {
  import opened Wrappers
  import opened Geometry
  import opened Gpu

  /** `MinimizationParams`: `step_size` as the bit pattern of its `f32`, then `max_steps`. */
  datatype MinimizationParams = MinimizationParams(stepSizeBits: U32, maxSteps: U32)

  /** `bytemuck::bytes_of(&params)`: the two fields, four bytes each, in declaration order. */
  function ParamsBytes(p: MinimizationParams): (bs: seq<Byte>)
    ensures |bs| == 8
  {
    Le32(p.stepSizeBits) + Le32(p.maxSteps)
  }

  /** The parameters the shader reads from eight bytes of its uniform buffer. */
  function ParamsOfBytes(bs: seq<Byte>): MinimizationParams
    requires |bs| == 8
  {
    MinimizationParams(Le32Value(bs[0..4]), Le32Value(bs[4..8]))
  }

  /** The shader reads back exactly the parameters that were written, and every eight bytes are such an image. */
  lemma ParamsRoundTrip(p: MinimizationParams, bs: seq<Byte>)
    requires |bs| == 8
    ensures ParamsOfBytes(ParamsBytes(p)) == p
    ensures ParamsBytes(ParamsOfBytes(bs)) == bs
  {
    var image := ParamsBytes(p);
    assert image[0..4] == Le32(p.stepSizeBits);
    assert image[4..8] == Le32(p.maxSteps);
    Le32RoundTrip(p.stepSizeBits);
    Le32RoundTrip(p.maxSteps);
    Le32Decode(bs[0..4]);
    Le32Decode(bs[4..8]);
    assert bs == bs[0..4] + bs[4..8];
  }

  /** `x as f32`, read back as `f64`: the value after rounding to single precision. */
  type ToF32 = real -> real

  /** Bytes of one `f32`: `std::mem::size_of::<f32>()`. */
  const F32_SIZE: nat := 4

  /** `coords.iter().flat_map(|(x, y, z)| vec![*x as f32, *y as f32, *z as f32])`. */
  function Flatten(coords: seq<Vec3>, toF32: ToF32): (values: seq<real>)
    ensures |values| == 3 * |coords|
  {
    if coords == [] then []
    else
      var c := coords[|coords| - 1];
      Flatten(coords[..|coords| - 1], toF32) + [toF32(c.0), toF32(c.1), toF32(c.2)]
  }

  /** Values 3i, 3i+1 and 3i+2 are the converted x, y and z of atom i. */
  lemma {:induction false} FlattenAt(coords: seq<Vec3>, toF32: ToF32)
    ensures forall i :: 0 <= i < |coords| ==>
      Flatten(coords, toF32)[3 * i] == toF32(coords[i].0) &&
      Flatten(coords, toF32)[3 * i + 1] == toF32(coords[i].1) &&
      Flatten(coords, toF32)[3 * i + 2] == toF32(coords[i].2)
  {
    if coords != [] {
      var front := coords[..|coords| - 1];
      FlattenAt(front, toF32);
      forall i | 0 <= i < |front|
        ensures coords[i] == front[i]
      {
      }
    }
  }

  /** `buffer_size`: four bytes per value, so twelve per atom. */
  lemma BufferSize(coords: seq<Vec3>, toF32: ToF32)
    ensures |Flatten(coords, toF32)| * F32_SIZE == 12 * |coords|
  {
  }

  /** `updated_coords.chunks(3)` made into positions, for a whole number of chunks. */
  function Regroup(values: seq<real>): (coords: seq<Vec3>)
    requires |values| % 3 == 0
    ensures |coords| == |values| / 3
  {
    if values == [] then []
    else
      var n := |values|;
      Regroup(values[..n - 3]) + [(values[n - 3], values[n - 2], values[n - 1])]
  }

  /** Each position converted component by component. */
  function Rounded(coords: seq<Vec3>, toF32: ToF32): (r: seq<Vec3>)
    ensures |r| == |coords|
  {
    if coords == [] then []
    else
      var c := coords[|coords| - 1];
      Rounded(coords[..|coords| - 1], toF32) + [(toF32(c.0), toF32(c.1), toF32(c.2))]
  }

  /** Regrouping the flattened positions gives every atom back, in order, as its converted components. */
  lemma {:induction false} RegroupFlatten(coords: seq<Vec3>, toF32: ToF32)
    ensures Regroup(Flatten(coords, toF32)) == Rounded(coords, toF32)
  {
    if coords != [] {
      var front := coords[..|coords| - 1];
      RegroupFlatten(front, toF32);
      var values := Flatten(coords, toF32);
      assert values[..|values| - 3] == Flatten(front, toF32);
    }
  }

  /** Positions that are already single-precision values come back unchanged. */
  lemma {:induction false} RoundedExact(coords: seq<Vec3>, toF32: ToF32)
    requires forall i :: 0 <= i < |coords| ==>
      toF32(coords[i].0) == coords[i].0 && toF32(coords[i].1) == coords[i].1 && toF32(coords[i].2) == coords[i].2
    ensures Rounded(coords, toF32) == coords
  {
    if coords != [] {
      var front := coords[..|coords| - 1];
      assert forall i :: 0 <= i < |front| ==> front[i] == coords[i];
      RoundedExact(front, toF32);
    }
  }

  /** One more whole chunk regroups to one more position. */
  lemma RegroupSnoc(values: seq<real>, k: nat)
    requires k % 3 == 0 && k + 3 <= |values|
    ensures Regroup(values[..k + 3]) == Regroup(values[..k]) + [(values[k], values[k + 1], values[k + 2])]
  {
    assert values[..k + 3][..k] == values[..k];
  }

  /** A minimization shader: what it leaves in slot i of the value buffer, given the values and the parameter bytes. */
  type MinimizeKernel = (seq<real>, seq<Byte>, nat, nat) -> real

  /** The value buffer after the pass: one slot per value. */
  function KernelValues(kernel: MinimizeKernel, values: seq<real>, params: seq<Byte>, groups: nat): (out: seq<real>)
    ensures |out| == |values|
  {
    seq(|values|, i requires 0 <= i < |values| => kernel(values, params, groups, i))
  }

  /** The caller's positions after `minimize_energy`, or its panic on an overflowing dispatch count. */
  function Minimized(coords: seq<Vec3>, params: MinimizationParams, toF32: ToF32, kernel: MinimizeKernel,
                     mapOk: bool): Result<seq<Vec3>, GpuError>
  {
    match WorkGroups(|coords|)
    case Err(e) => Err(e)
    case Ok(groups) =>
      if !mapOk then Ok(coords)
      else
        var out := KernelValues(kernel, Flatten(coords, toF32), ParamsBytes(params), groups);
        assert |out| == |coords| * 3;
        Ok(Regroup(out))
  }

  /**
   * A run that does not panic leaves one position per atom: atom i is made of what the shader
   * left in slots 3i to 3i+2 when the mapping succeeds, and the positions are untouched when it
   * fails.
   */
  lemma MinimizedShape(coords: seq<Vec3>, params: MinimizationParams, toF32: ToF32, kernel: MinimizeKernel, mapOk: bool)
    ensures var r := Minimized(coords, params, toF32, kernel, mapOk);
      r.Ok? <==> WorkGroups(|coords|).Ok?
    ensures var r := Minimized(coords, params, toF32, kernel, mapOk);
      r.Ok? ==> |r.value| == |coords|
    ensures var r := Minimized(coords, params, toF32, kernel, mapOk);
      r.Ok? && !mapOk ==> r.value == coords
    ensures var r := Minimized(coords, params, toF32, kernel, mapOk);
      r.Ok? && mapOk ==> forall i :: 0 <= i < |coords| ==>
        var out := KernelValues(kernel, Flatten(coords, toF32), ParamsBytes(params), WorkGroups(|coords|).value);
        r.value[i] == (out[3 * i], out[3 * i + 1], out[3 * i + 2])
  {
    if WorkGroups(|coords|).Ok? && mapOk {
      var out := KernelValues(kernel, Flatten(coords, toF32), ParamsBytes(params), WorkGroups(|coords|).value);
      RegroupAt(out);
    }
  }

  /** Position i of a regrouping is values 3i, 3i+1 and 3i+2. */
  lemma {:induction false} RegroupAt(values: seq<real>)
    requires |values| % 3 == 0
    ensures forall i :: 0 <= i < |values| / 3 ==>
      Regroup(values)[i] == (values[3 * i], values[3 * i + 1], values[3 * i + 2])
  {
    if values != [] {
      var n := |values|;
      var front := values[..n - 3];
      RegroupAt(front);
      forall i | 0 <= i < n / 3
        ensures Regroup(values)[i] == (values[3 * i], values[3 * i + 1], values[3 * i + 2])
      {
        if i < n / 3 - 1 {
          assert front[3 * i] == values[3 * i] && front[3 * i + 1] == values[3 * i + 1] && front[3 * i + 2] == values[3 * i + 2];
        }
      }
    }
  }

  /** The caller's `Vec<(f64, f64, f64)>`, which `minimize_energy` changes in place. */
  class CoordinateList {
    var items: seq<Vec3>

    constructor (items: seq<Vec3>)
      ensures this.items == items
    {
      this.items := items;
    }

    /**
     * `coords.clear()`, then one `push` per `chunks(3)` chunk. A short last chunk panics at
     * `chunk[1]` or `chunk[2]`, with the whole chunks before it already pushed.
     */
    method Refill(values: seq<real>) returns (r: Result<(), GpuError>)
      modifies this
      ensures |values| % 3 == 0 ==> r.Ok? && items == Regroup(values)
      ensures |values| % 3 != 0 ==> r.Err? && items == Regroup(values[..|values| - |values| % 3])
    {
      items := [];
      var k := 0;
      while k < |values|
        invariant k % 3 == 0 && k <= |values|
        invariant items == Regroup(values[..k])
      {
        if k + 3 > |values| {
          return Err(ShortChunk);
        }
        RegroupSnoc(values, k);
        items := items + [(values[k], values[k + 1], values[k + 2])];
        k := k + 3;
      }
      assert values[..k] == values;
      return Ok(());
    }
  }

  /**
   * The readback of `minimize_energy`: map the buffer; on success take a view, rebuild the
   * caller's positions from it and drop the view as the `if` block ends; unmap in either case.
   */
  method ReadBackInto(buffer: MappableBuffer<real>, coords: CoordinateList, mapOk: bool)
    requires buffer.state == Unmapped && buffer.views == 0
    requires |buffer.contents| % 3 == 0
    modifies buffer, coords
    ensures coords.items == if mapOk then Regroup(old(buffer.contents)) else old(coords.items)
    ensures buffer.state == Unmapped && buffer.views == 0 && buffer.contents == old(buffer.contents)
    ensures buffer.ops == old(buffer.ops) + if mapOk then [MapOp(true), ViewOp, DropOp, UnmapOp] else [MapOp(false), UnmapOp]
  {
    buffer.MapAsync(mapOk);
    if buffer.state == Mapped {
      var data := buffer.GetMappedRange();
      var _ := coords.Refill(data);
      buffer.DropView();
    }
    buffer.Unmap();
  }

  /**
   * `minimize_energy`: flatten the positions, upload them with the parameters, dispatch
   * `(n as u32 + 63) / 64` groups, then read the buffer back into the caller's list.
   */
  method MinimizeEnergy(coords: CoordinateList, params: MinimizationParams, toF32: ToF32, kernel: MinimizeKernel,
                        mapOk: bool) returns (r: Result<(), GpuError>)
    modifies coords
    ensures Minimized(old(coords.items), params, toF32, kernel, mapOk).Err? ==>
      r == Err(Minimized(old(coords.items), params, toF32, kernel, mapOk).error) && coords.items == old(coords.items)
    ensures Minimized(old(coords.items), params, toF32, kernel, mapOk).Ok? ==>
      r.Ok? && coords.items == Minimized(old(coords.items), params, toF32, kernel, mapOk).value
  {
    var data := Flatten(coords.items, toF32);
    var bufferSize := |data| * F32_SIZE;
    var buffer := new MappableBuffer(data, F32_SIZE);
    assert buffer.Size() == bufferSize;
    var paramBytes := ParamsBytes(params);
    var groups := WorkGroups(|coords.items|);
    if groups.Err? {
      return Err(groups.error);
    }
    buffer.Dispatch(KernelValues(kernel, data, paramBytes, groups.value));
    ReadBackInto(buffer, coords, mapOk);
    return Ok(());
  }
}
