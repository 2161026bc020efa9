/**
 * `run_atom_pipeline` of rust/src/compute_pipeline.rs without its wgpu plumbing: the shader chosen
 * by the process tag, the byte images of the parameters, bonds and atom types that are bound to
 * the pass, the work-group count, and the copy and readback of the result buffer. The shader is a
 * parameter: what it leaves in each slot of the coordinate buffer.
 */
module ComputePipeline {
  import opened Wrappers
  import opened Geometry
  import opened Pairs
  import opened Gpu

  /** The three compute shaders. */
  datatype Shader = Relax | Minimize | Simulate

  /** `AtomPipelineParams`: `step_size` as the bit pattern of its `f32`, then `max_steps` and `process_type`. */
  datatype AtomPipelineParams = AtomPipelineParams(stepSizeBits: U32, maxSteps: U32, processType: U32)

  /** The `match params.process_type`: 0, 1 and 2 pick a shader, anything else panics. */
  function SelectShader(tag: U32): Result<Shader, GpuError>
  {
    match tag
    case 0 => Ok(Relax)
    case 1 => Ok(Minimize)
    case 2 => Ok(Simulate)
    case _ => Err(InvalidProcessType)
  }

  /** The process tag of each shader, as the comment on `process_type` lists them. */
  function ShaderTag(s: Shader): U32
  {
    match s
    case Relax => 0
    case Minimize => 1
    case Simulate => 2
  }

  /** Exactly the tags 0 to 2 select a shader, each the one carrying that tag. */
  lemma SelectShaderTags(tag: U32)
    ensures SelectShader(tag).Ok? <==> tag <= 2
    ensures SelectShader(tag).Ok? ==> ShaderTag(SelectShader(tag).value) == tag
    ensures SelectShader(tag).Err? ==> SelectShader(tag).error == InvalidProcessType
  {
  }

  /** Every shader is selected by its own tag. */
  lemma ShaderTagSelects(s: Shader)
    ensures SelectShader(ShaderTag(s)) == Ok(s)
  {
  }

  /** `bytemuck::cast_slice(&[params])`: the three fields, four bytes each, in declaration order. */
  function ParamsBytes(p: AtomPipelineParams): (bs: seq<Byte>)
    ensures |bs| == 12
  {
    Le32(p.stepSizeBits) + Le32(p.maxSteps) + Le32(p.processType)
  }

  /** The parameters the shader reads from twelve bytes of its uniform buffer. */
  function ParamsOfBytes(bs: seq<Byte>): AtomPipelineParams
    requires |bs| == 12
  {
    AtomPipelineParams(Le32Value(bs[0..4]), Le32Value(bs[4..8]), Le32Value(bs[8..12]))
  }

  /** The shader reads back exactly the parameters that were written. */
  lemma ParamsRoundTrip(p: AtomPipelineParams)
    ensures ParamsOfBytes(ParamsBytes(p)) == p
  {
    var bs := ParamsBytes(p);
    assert bs[0..4] == Le32(p.stepSizeBits);
    assert bs[4..8] == Le32(p.maxSteps);
    assert bs[8..12] == Le32(p.processType);
    Le32RoundTrip(p.stepSizeBits);
    Le32RoundTrip(p.maxSteps);
    Le32RoundTrip(p.processType);
  }

  /** Every twelve bytes are the image of the parameters they hold. */
  lemma ParamsBytesDecode(bs: seq<Byte>)
    requires |bs| == 12
    ensures ParamsBytes(ParamsOfBytes(bs)) == bs
  {
    Le32Decode(bs[0..4]);
    Le32Decode(bs[4..8]);
    Le32Decode(bs[8..12]);
    assert bs == bs[0..4] + bs[4..8] + bs[8..12];
  }

  /** `a as u8`: the low eight bits of an atom index. */
  function AsU8(a: nat): (b: Byte)
    ensures a < 256 ==> b == a
  {
    a % 256
  }

  /** `bonds.iter().flat_map(|(a, b)| vec![*a as u8, *b as u8])`. */
  function BondBytes(bonds: seq<Pair>): (bs: seq<Byte>)
    ensures |bs| == 2 * |bonds|
  {
    if bonds == [] then []
    else
      var last := bonds[|bonds| - 1];
      BondBytes(bonds[..|bonds| - 1]) + [AsU8(last.0), AsU8(last.1)]
  }

  /** Bytes 2k and 2k+1 are the two indices of bond k, each reduced modulo 256. */
  lemma {:induction false} BondBytesAt(bonds: seq<Pair>)
    ensures forall k :: 0 <= k < |bonds| ==>
      BondBytes(bonds)[2 * k] == bonds[k].0 % 256 && BondBytes(bonds)[2 * k + 1] == bonds[k].1 % 256
  {
    if bonds != [] {
      var front := bonds[..|bonds| - 1];
      BondBytesAt(front);
      forall k | 0 <= k < |bonds|
        ensures BondBytes(bonds)[2 * k] == bonds[k].0 % 256 && BondBytes(bonds)[2 * k + 1] == bonds[k].1 % 256
      {
        if k < |front| {
          assert bonds[k] == front[k];
        }
      }
    }
  }

  /** The pairs a shader reads from a bond buffer: consecutive bytes, two at a time. */
  function BondsOfBytes(bs: seq<Byte>): (bonds: seq<Pair>)
    requires |bs| % 2 == 0
    ensures |bonds| == |bs| / 2
  {
    if bs == [] then []
    else BondsOfBytes(bs[..|bs| - 2]) + [(bs[|bs| - 2], bs[|bs| - 1])]
  }

  /** Bonds between the first 256 atoms survive the byte encoding. */
  lemma {:induction false} BondBytesRoundTrip(bonds: seq<Pair>)
    requires forall k :: 0 <= k < |bonds| ==> bonds[k].0 < 256 && bonds[k].1 < 256
    ensures BondsOfBytes(BondBytes(bonds)) == bonds
  {
    if bonds != [] {
      var front := bonds[..|bonds| - 1];
      BondBytesRoundTrip(front);
      var bs := BondBytes(bonds);
      assert bs[..|bs| - 2] == BondBytes(front);
    }
  }

  /** Past the 256th atom, different bonds give the same bytes: a bond to atom 256 reads as a bond to atom 0. */
  lemma BondBytesWrap()
    ensures BondBytes([(256, 1)]) == BondBytes([(0, 1)])
    ensures BondsOfBytes(BondBytes([(256, 1)])) == [(0, 1)]
  {
    assert [(256, 1)][..0] == [];
    assert [(0, 1)][..0] == [];
    var bs := BondBytes([(0, 1)]);
    assert bs == [0, 1];
    assert bs[..0] == [];
  }

  /** The UTF-8 bytes of one character (what `str::bytes` yields for it). */
  function Utf8Char(c: char): (bs: seq<Byte>)
    ensures 1 <= |bs| <= 4
    ensures |bs| == 1 <==> c as int < 128
  {
    var n := c as int;
    if n < 0x80 then [n]
    else if n < 0x800 then [0xC0 + n / 64, 0x80 + n % 64]
    else if n < 0x10000 then [0xE0 + n / 4096, 0x80 + n / 64 % 64, 0x80 + n % 64]
    else [0xF0 + n / 262144, 0x80 + n / 4096 % 64, 0x80 + n / 64 % 64, 0x80 + n % 64]
  }

  /** The code point a one- to four-byte UTF-8 sequence encodes. */
  function Utf8Code(bs: seq<Byte>): int
    requires 1 <= |bs| <= 4
  {
    var b: seq<int> := bs;
    if |b| == 1 then b[0]
    else if |b| == 2 then (b[0] - 0xC0) * 64 + (b[1] - 0x80)
    else if |b| == 3 then (b[0] - 0xE0) * 4096 + (b[1] - 0x80) * 64 + (b[2] - 0x80)
    else (b[0] - 0xF0) * 262144 + (b[1] - 0x80) * 4096 + (b[2] - 0x80) * 64 + (b[3] - 0x80)
  }

  /**
   * Each character's bytes decode back to it; the first byte is an ASCII byte or a lead byte
   * (0xC0 and above) and every further byte a continuation byte (0x80 to 0xBF).
   */
  lemma Utf8CharRoundTrip(c: char)
    ensures Utf8Code(Utf8Char(c)) == c as int
    ensures Utf8Char(c)[0] < 0x80 || Utf8Char(c)[0] >= 0xC0
    ensures forall k :: 1 <= k < |Utf8Char(c)| ==> 0x80 <= Utf8Char(c)[k] < 0xC0
  {
    var n := c as int;
    if 0x800 <= n < 0x10000 {
      assert n == n / 4096 * 4096 + n / 64 % 64 * 64 + n % 64;
    } else if n >= 0x10000 {
      assert n / 64 == n / 4096 * 64 + n / 64 % 64;
      assert n / 4096 == n / 262144 * 64 + n / 4096 % 64;
    }
  }

  /** `s.bytes()`: the UTF-8 encoding of a string. */
  function Utf8(s: string): (bs: seq<Byte>)
    ensures |bs| >= |s|
  {
    if s == [] then [] else Utf8(s[..|s| - 1]) + Utf8Char(s[|s| - 1])
  }

  /** A string of ASCII characters is one byte per character, each its character code. */
  lemma {:induction false} Utf8Ascii(s: string)
    requires forall k :: 0 <= k < |s| ==> s[k] as int < 128
    ensures |Utf8(s)| == |s|
    ensures forall k :: 0 <= k < |s| ==> Utf8(s)[k] == s[k] as int
  {
    if s != [] {
      var front := s[..|s| - 1];
      Utf8Ascii(front);
      assert forall k :: 0 <= k < |front| ==> s[k] == front[k];
    }
  }

  /** UTF-8 of a concatenation is the concatenation of the UTF-8. */
  lemma {:induction false} Utf8Append(s: string, t: string)
    ensures Utf8(s + t) == Utf8(s) + Utf8(t)
  {
    if t != [] {
      var front := t[..|t| - 1];
      assert (s + t)[..|s + t| - 1] == s + front;
      Utf8Append(s, front);
    } else {
      assert s + t == s;
    }
  }

  /** `atom_types.iter().flat_map(|s| s.bytes())`: every type's bytes, one after another, with no separator. */
  function TypeBytes(types: seq<string>): seq<Byte>
  {
    if types == [] then [] else TypeBytes(types[..|types| - 1]) + Utf8(types[|types| - 1])
  }

  /** The total length of a list of strings. */
  function TotalLength(types: seq<string>): nat
  {
    if types == [] then 0 else TotalLength(types[..|types| - 1]) + |types[|types| - 1]|
  }

  /** The type buffer is the UTF-8 of all the types joined together. */
  lemma {:induction false} TypeBytesJoined(types: seq<string>)
    ensures TypeBytes(types) == Utf8(Joined(types))
  {
    if types != [] {
      var front := types[..|types| - 1];
      TypeBytesJoined(front);
      Utf8Append(Joined(front), types[|types| - 1]);
    }
  }

  /** The strings of a list joined with no separator. */
  function Joined(types: seq<string>): (s: string)
    ensures |s| == TotalLength(types)
  {
    if types == [] then [] else Joined(types[..|types| - 1]) + types[|types| - 1]
  }

  /** For ASCII element symbols the type buffer has one byte per character of all the types together. */
  lemma TypeBytesAscii(types: seq<string>)
    requires forall k, j :: 0 <= k < |types| && 0 <= j < |types[k]| ==> types[k][j] as int < 128
    ensures |TypeBytes(types)| == TotalLength(types)
  {
    TypeBytesJoined(types);
    JoinedAscii(types);
    Utf8Ascii(Joined(types));
  }

  /** Joining ASCII strings gives an ASCII string. */
  lemma {:induction false} JoinedAscii(types: seq<string>)
    requires forall k, j :: 0 <= k < |types| && 0 <= j < |types[k]| ==> types[k][j] as int < 128
    ensures forall i :: 0 <= i < |Joined(types)| ==> Joined(types)[i] as int < 128
  {
    if types != [] {
      var front := types[..|types| - 1];
      assert forall k :: 0 <= k < |front| ==> front[k] == types[k];
      JoinedAscii(front);
      var last := types[|types| - 1];
      forall i | 0 <= i < |Joined(types)|
        ensures Joined(types)[i] as int < 128
      {
        if i >= |Joined(front)| {
          assert Joined(types)[i] == last[i - |Joined(front)|];
        }
      }
    }
  }

  /** Where one type ends is not in the buffer: carbon then oxygen is the same bytes as one type "CO". */
  lemma TypeBytesUnseparated()
    ensures TypeBytes(["C", "O"]) == TypeBytes(["CO"])
  {
    TypeBytesJoined(["C", "O"]);
    TypeBytesJoined(["CO"]);
    assert ["C", "O"][..1] == ["C"];
    assert ["C"][..0] == [];
    assert ["CO"][..0] == [];
    assert Joined(["C", "O"]) == "CO";
  }

  /** Bytes of one `[f64; 3]`: `std::mem::size_of::<[f64; 3]>()`. */
  const COORD_SIZE: nat := 24

  /** What the compute pass sees in its four bindings. */
  datatype PassInputs = PassInputs(coords: seq<Vec3>, params: seq<Byte>, types: seq<Byte>, bonds: seq<Byte>, groups: nat)

  /** A compute shader: what it leaves in slot i of the coordinate buffer. Its WGSL code is not modelled. */
  type AtomKernel = (Shader, PassInputs, nat) -> Vec3

  /** The coordinate buffer after the pass: one slot per atom. */
  function KernelOutput(kernel: AtomKernel, shader: Shader, inputs: PassInputs, n: nat): (out: seq<Vec3>)
    ensures |out| == n
  {
    seq(n, i requires 0 <= i < n => kernel(shader, inputs, i))
  }

  /**
   * What `run_atom_pipeline` returns: a panic for an unknown process tag or an overflowing
   * dispatch count; otherwise, when the mapping succeeds, the coordinate buffer as the shader left
   * it, and a panic when it fails.
   */
  function AtomPipeline(coords: seq<Vec3>, atomTypes: seq<string>, bonds: seq<Pair>, params: AtomPipelineParams,
                        kernel: AtomKernel, mapOk: bool): Result<seq<Vec3>, GpuError>
  {
    match SelectShader(params.processType)
    case Err(e) => Err(e)
    case Ok(shader) =>
      match WorkGroups(|coords|)
      case Err(e) => Err(e)
      case Ok(groups) =>
        if !mapOk then Err(ReadbackFailed)
        else
          var inputs := PassInputs(coords, ParamsBytes(params), TypeBytes(atomTypes), BondBytes(bonds), groups);
          Ok(KernelOutput(kernel, shader, inputs, |coords|))
  }

  /**
   * A successful run returns one position per atom, each what the selected shader computed for
   * that atom from the bound inputs; it succeeds exactly when the tag is known, the dispatch count
   * does not overflow and the mapping succeeds.
   */
  lemma AtomPipelineResult(coords: seq<Vec3>, atomTypes: seq<string>, bonds: seq<Pair>, params: AtomPipelineParams,
                           kernel: AtomKernel, mapOk: bool)
    ensures var r := AtomPipeline(coords, atomTypes, bonds, params, kernel, mapOk);
      r.Ok? <==> params.processType <= 2 && WorkGroups(|coords|).Ok? && mapOk
    ensures var r := AtomPipeline(coords, atomTypes, bonds, params, kernel, mapOk);
      r.Ok? ==> (|r.value| == |coords| &&
        forall i :: 0 <= i < |coords| ==> r.value[i] == kernel(SelectShader(params.processType).value,
          PassInputs(coords, ParamsBytes(params), TypeBytes(atomTypes), BondBytes(bonds), WorkGroups(|coords|).value), i))
    ensures var r := AtomPipeline(coords, atomTypes, bonds, params, kernel, mapOk);
      params.processType > 2 ==> r == Err(InvalidProcessType)
  {
    SelectShaderTags(params.processType);
  }

  /**
   * The readback of `run_atom_pipeline`: map the result buffer; on success take a view, copy it
   * out, drop the view and unmap, in that order; on failure panic with the buffer left as the
   * failed mapping left it.
   */
  method ReadBack(buffer: MappableBuffer<Vec3>, mapOk: bool) returns (r: Result<seq<Vec3>, GpuError>)
    requires buffer.state == Unmapped && buffer.views == 0
    modifies buffer
    ensures mapOk ==> r == Ok(old(buffer.contents))
    ensures !mapOk ==> r == Err(ReadbackFailed)
    ensures buffer.contents == old(buffer.contents) && buffer.views == 0
    ensures mapOk ==> buffer.state == Unmapped && buffer.ops == old(buffer.ops) + [MapOp(true), ViewOp, DropOp, UnmapOp]
    ensures !mapOk ==> buffer.state == MapFailed && buffer.ops == old(buffer.ops) + [MapOp(false)]
  {
    buffer.MapAsync(mapOk);
    if buffer.state == Mapped {
      var data := buffer.GetMappedRange();
      var result := data;
      buffer.DropView();
      buffer.Unmap();
      return Ok(result);
    }
    return Err(ReadbackFailed);
  }

  /**
   * `run_atom_pipeline`: select the shader, upload the coordinates, create the result buffer of
   * `n * 24` bytes, encode bonds, types and parameters, dispatch `(n as u32 + 63) / 64` groups,
   * copy `n * 24` bytes into the result buffer and read it back.
   */
  method RunAtomPipeline(coords: seq<Vec3>, atomTypes: seq<string>, bonds: seq<Pair>, params: AtomPipelineParams,
                         kernel: AtomKernel, mapOk: bool) returns (r: Result<seq<Vec3>, GpuError>)
    ensures r == AtomPipeline(coords, atomTypes, bonds, params, kernel, mapOk)
  {
    var shader := SelectShader(params.processType);
    if shader.Err? {
      return Err(shader.error);
    }
    var n := |coords|;
    var coordBuffer := new MappableBuffer(coords, COORD_SIZE);
    var resultBuffer := new MappableBuffer(seq(n, _ => (0.0, 0.0, 0.0)), COORD_SIZE);
    var bondBytes := BondBytes(bonds);
    var typeBytes := TypeBytes(atomTypes);
    var paramBytes := ParamsBytes(params);
    var groups := WorkGroups(n);
    if groups.Err? {
      return Err(groups.error);
    }
    var inputs := PassInputs(coords, paramBytes, typeBytes, bondBytes, groups.value);
    coordBuffer.Dispatch(KernelOutput(kernel, shader.value, inputs, n));
    resultBuffer.CopyFrom(coordBuffer.contents, n * COORD_SIZE);
    r := ReadBack(resultBuffer, mapOk);
  }
}
