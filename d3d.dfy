/**
 * The part of the Direct3D 11 interface that the XSDX resource wrappers and the
 * SparseVolume renderer talk to, replaced by an abstract recorder.
 *
 * - A `Device` answers every creation request through an oracle `accepts` (the
 *   driver either creates the object or refuses it; a refusal is what
 *   `ThrowIfFailed` turns into an abort) and appends what it created to an
 *   append-only log.  The handle of a created object is its position in that log.
 * - A `Context` is the immediate context: the state bound to the pipeline and an
 *   append-only log of the commands issued, each draw and dispatch carrying a
 *   snapshot of the bindings it ran with.
 *
 * Descriptors record the arguments the source passes to the `CD3D11_*` helper
 * constructors.  A count of (UINT)-1 is the helpers' "rest of the resource" and is
 * kept as `Remaining`; `Unknown` as a view format means "the resource's format".
 */
module D3D {

  type uint8 = x: int | 0 <= x < 0x100
  type uint32 = x: int | 0 <= x < 0x1_0000_0000

  /** A device object (texture, buffer, view): its index in the device's creation log. */
  type Handle = nat

  datatype Option<+T> = None | Some(value: T)

  const TwoTo32: nat := 0x1_0000_0000

  /** (UINT)-1, the descriptor helpers' default count meaning "up to the end of the resource". */
  const Remaining: uint32 := 0xFFFF_FFFF

  /** `max(n, 1)` as the source writes it for mip counts. */
  function AtLeastOne(n: nat): (r: nat)
    ensures r >= 1 && r >= n
    ensures n >= 1 ==> r == n
  {
    if n == 0 then 1 else n
  }

  /** Unsigned 32-bit multiplication: the exact product when it fits, otherwise wrapped modulo 2^32. */
  function Mul32(a: uint32, b: uint32): (r: uint32)
    ensures a * b < TwoTo32 ==> r == a * b
    ensures (a * b - r) % TwoTo32 == 0
  {
    (a * b) % TwoTo32
  }

  /** The bit pattern of an IEEE 754 binary32 value from its sign, biased exponent and fraction fields. */
  function Binary32Bits(sign: nat, biasedExponent: nat, fraction: nat): (bits: uint32)
    requires sign < 2 && biasedExponent < 0x100 && fraction < 0x80_0000
    ensures bits / 0x8000_0000 == sign
    ensures (bits / 0x80_0000) % 0x100 == biasedExponent
    ensures bits % 0x80_0000 == fraction
  {
    sign * 0x8000_0000 + biasedExponent * 0x80_0000 + fraction
  }

  // ---------------------------------------------------------------------------
  // Formats, flags and usages (the DXGI / D3D11 enumerations the core uses)
  // ---------------------------------------------------------------------------

  datatype Format =
    | Unknown
    | R32Typeless | R32Float | R32Uint
    | R24G8Typeless | R24UnormX8Typeless | D24UnormS8Uint
    | R16Typeless | R16Unorm | D16Unorm
    | D32Float
    | OtherFormat(code: nat)

  datatype Usage = UsageDefault | UsageImmutable | UsageDynamic | UsageStaging

  // D3D11_BIND_FLAG
  const BindVertexBuffer: bv32 := 0x1
  const BindIndexBuffer: bv32 := 0x2
  const BindConstantBuffer: bv32 := 0x4
  const BindShaderResource: bv32 := 0x8
  const BindRenderTarget: bv32 := 0x20
  const BindDepthStencil: bv32 := 0x40
  const BindUnorderedAccess: bv32 := 0x80

  // D3D11_CPU_ACCESS_FLAG
  const CpuAccessWrite: bv32 := 0x1_0000
  const CpuAccessRead: bv32 := 0x2_0000

  // D3D11_RESOURCE_MISC_FLAG
  const MiscGenerateMips: bv32 := 0x1
  const MiscBufferAllowRawViews: bv32 := 0x20
  const MiscBufferStructured: bv32 := 0x40

  // D3D11_BUFFEREX_SRV_FLAG_RAW and D3D11_DSV_FLAG
  const SrvFlagRaw: bv32 := 0x1
  const DsvReadOnlyDepth: bv32 := 0x1
  const DsvReadOnlyStencil: bv32 := 0x2

  predicate Has(flags: bv32, bit: bv32) {
    flags & bit != 0
  }

  /** The CPU access every wrapper derives from its usage: write access exactly for a dynamic resource. */
  function CpuAccessFor(usage: Usage): (a: bv32)
    ensures Has(a, CpuAccessWrite) <==> usage == UsageDynamic
    ensures !Has(a, CpuAccessRead)
  {
    if usage == UsageDynamic then CpuAccessWrite else 0
  }

  // ---------------------------------------------------------------------------
  // Resource and view descriptors
  // ---------------------------------------------------------------------------

  datatype TextureDesc =
    | Texture2DDesc(format: Format, width: uint32, height: uint32, arraySize: uint32, mipLevels: uint32,
                    bindFlags: bv32, usage: Usage, cpuAccess: bv32,
                    sampleCount: uint32, sampleQuality: uint32, miscFlags: bv32)
    | Texture3DDesc(format: Format, width: uint32, height: uint32, depth: uint32, mipLevels: uint32,
                    bindFlags: bv32, usage: Usage, cpuAccess: bv32, miscFlags: bv32)

  datatype BufferDesc = BufferDesc(byteWidth: uint32, usage: Usage, bindFlags: bv32, cpuAccess: bv32,
                                   miscFlags: bv32, structureByteStride: uint32)

  /** The pitches of a D3D11_SUBRESOURCE_DATA; the bytes behind its pointer are not modelled. */
  datatype InitData = InitData(rowPitch: uint32, slicePitch: uint32)

  datatype ViewKind = ShaderResourceView | UnorderedAccessView | RenderTargetView | DepthStencilView

  datatype ViewDimension = BufferDim | BufferExDim | Tex2D | Tex2DArray | Tex2DMS | Tex2DMSArray | Tex3D {
    predicate IsArray() { this == Tex2DArray || this == Tex2DMSArray }
    predicate IsMultisampled() { this == Tex2DMS || this == Tex2DMSArray }
  }

  /**
   * One view descriptor.  `firstMip`/`mipCount` are MostDetailedMip/MipLevels of a
   * shader-resource view and MipSlice/1 of the other views; `firstSlice`/`sliceCount`
   * are FirstArraySlice/ArraySize, or FirstWSlice/WSize of a volume UAV; `numElements`
   * is the element count of a buffer view (whose first element is always 0 here).
   */
  datatype ViewDesc = ViewDesc(kind: ViewKind, dim: ViewDimension, format: Format,
                               firstMip: uint32, mipCount: uint32,
                               firstSlice: uint32, sliceCount: uint32,
                               numElements: uint32, flags: bv32)

  datatype TextureRef = TextureRef(handle: Handle, desc: TextureDesc)
  datatype BufferRef = BufferRef(handle: Handle, desc: BufferDesc)
  datatype View = View(handle: Handle, desc: ViewDesc)

  /** Largest-extent-n full mip chain: the levels n, n/2, ..., 1, which is floor(log2 n) + 1 of them. */
  function FullMipChain(n: nat): (levels: nat)
    ensures levels >= 1
    ensures n <= 1 <==> levels == 1
    ensures n >= 1 ==> levels <= n
    ensures n >= 1 ==> Pow2(levels - 1) <= n < Pow2(levels)
  {
    if n <= 1 then 1 else 1 + FullMipChain(n / 2)
  }

  function Pow2(k: nat): (p: nat)
    ensures p >= 1
  {
    if k == 0 then 1 else 2 * Pow2(k - 1)
  }

  /** x >> k on an unsigned value, as k successive halvings. */
  function ShiftRight(x: nat, k: nat): (r: nat)
    ensures r <= x
  {
    if k == 0 then x else ShiftRight(x, k - 1) / 2
  }

  /** Shifting right by k is floor division by 2^k. */
  lemma {:induction false} ShiftRightDivides(x: nat, k: nat)
    ensures Pow2(k) * ShiftRight(x, k) <= x < Pow2(k) * (ShiftRight(x, k) + 1)
  {
    if k > 0 {
      ShiftRightDivides(x, k - 1);
      HalveBounds(x, Pow2(k - 1), ShiftRight(x, k - 1));
    }
  }

  /** x >> k is the quotient of x by 2^k. */
  lemma ShiftRightIsQuotient(x: nat, k: nat)
    ensures ShiftRight(x, k) == x / Pow2(k)
  {
    ShiftRightDivides(x, k);
    QuotientUnique(x, Pow2(k), ShiftRight(x, k));
  }

  /** The quotient is the only s with p * s <= x < p * (s + 1). */
  lemma QuotientUnique(x: nat, p: nat, s: nat)
    requires p > 0 && p * s <= x < p * (s + 1)
    ensures x / p == s
  {
    var q, r := x / p, x % p;
    assert x == p * q + r && 0 <= r < p;
    if q < s {
      MulMonotone(p, q + 1, s);
    } else if q > s {
      MulMonotone(p, s + 1, q);
    }
  }

  /** From p * s <= x < p * (s + 1) to the same bounds for 2 * p and s / 2. */
  lemma HalveBounds(x: nat, p: nat, s: nat)
    requires p * s <= x < p * (s + 1)
    ensures (2 * p) * (s / 2) <= x < (2 * p) * (s / 2 + 1)
  {
    var r := s / 2;
    assert 2 * r <= s <= 2 * r + 1;
    MulMonotone(p, 2 * r, s);
    MulMonotone(p, s + 1, 2 * r + 2);
    assert p * (2 * r) == (2 * p) * r;
    assert p * (2 * r + 2) == (2 * p) * (r + 1);
  }

  lemma MulMonotone(p: nat, a: nat, b: nat)
    requires a <= b
    ensures p * a <= p * b
  {
  }

  /** The MipLevels GetDesc reports for a created texture: a request for 0 levels gets the full chain. */
  function ReportedMipLevels(t: TextureDesc): (levels: nat)
    ensures levels >= 1
    ensures t.mipLevels > 0 ==> levels == t.mipLevels
    ensures levels < TwoTo32
  {
    if t.mipLevels > 0 then t.mipLevels
    else match t
      case Texture2DDesc(_, w, h, _, _, _, _, _, _, _, _) => FullMipChain(if w < h then h else w)
      case Texture3DDesc(_, w, h, d, _, _, _, _, _) =>
        var wh := if w < h then h else w;
        FullMipChain(if wh < d then d else wh)
  }

  // ---------------------------------------------------------------------------
  // The device: creation requests, the oracle and the creation log
  // ---------------------------------------------------------------------------

  datatype Request =
    | NewTexture(texture: TextureDesc, init: Option<InitData>)
    | NewBuffer(buffer: BufferDesc, init: Option<InitData>)
    | NewView(resource: Handle, view: ViewDesc)

  /**
   * Whether the driver creates request r when it has already created `log`: a driver may
   * refuse any request, for instance once memory runs out, also one it accepted before.
   */
  type Oracle = (seq<Request>, Request) -> bool

  /**
   * Asking the device for `reqs` in order, and aborting at the first refusal, takes the
   * creation log from `before` to `after`; `ok` says that nothing was refused.
   */
  predicate Issued(accepts: Oracle, before: seq<Request>, reqs: seq<Request>, after: seq<Request>, ok: bool)
    decreases |reqs|
  {
    if reqs == [] then after == before && ok
    else if accepts(before, reqs[0]) then Issued(accepts, before + [reqs[0]], reqs[1..], after, ok)
    else after == before && !ok
  }

  /** Every request of rs is accepted once the ones before it have been created. */
  predicate AllAccepted(accepts: Oracle, before: seq<Request>, rs: seq<Request>) {
    forall i :: 0 <= i < |rs| ==> accepts(before + rs[..i], rs[i])
  }

  /**
   * What the device creates when asked for `rs` in order by code that aborts at the
   * first refusal: the longest prefix of `rs` that the device accepts.
   */
  function Admitted(accepts: Oracle, before: seq<Request>, rs: seq<Request>): (p: seq<Request>)
    ensures |p| <= |rs| && p == rs[..|p|]
    ensures AllAccepted(accepts, before, p)
    ensures |p| < |rs| ==> !accepts(before + p, rs[|p|])
    decreases |rs|
  {
    if rs == [] || !accepts(before, rs[0]) then (assert before + [] == before; [])
    else
      var q := Admitted(accepts, before + [rs[0]], rs[1..]);
      var p := [rs[0]] + q;
      assert rs[1..][..|q|] == rs[1..|q| + 1];
      assert before + [rs[0]] + q == before + p;
      assert p[0] == rs[0] && p[1..] == q;
      AllAcceptedCons(accepts, before, p);
      p
  }

  /**
   * The run is what the longest-accepted-prefix reading says: the log grows by
   * exactly the admitted prefix, and the run is ok exactly when every request is accepted.
   */
  lemma {:induction false} IssuedMeansAdmitted(accepts: Oracle, before: seq<Request>, rs: seq<Request>,
                                               after: seq<Request>, ok: bool)
    ensures Issued(accepts, before, rs, after, ok)
        <==> after == before + Admitted(accepts, before, rs) && ok == AllAccepted(accepts, before, rs)
    decreases |rs|
  {
    if rs == [] {
      assert before + [] == before;
    } else if accepts(before, rs[0]) {
      IssuedMeansAdmitted(accepts, before + [rs[0]], rs[1..], after, ok);
      AdmittedCons(accepts, before, rs);
      AllAcceptedCons(accepts, before, rs);
    } else {
      assert Admitted(accepts, before, rs) == [];
      assert before + [] == before;
      assert !AllAccepted(accepts, before, rs) by { assert before + rs[..0] == before; }
    }
  }

  /** Once the first request is accepted, the log after the admitted prefix is the one after the rest's. */
  lemma AdmittedCons(accepts: Oracle, before: seq<Request>, rs: seq<Request>)
    requires rs != [] && accepts(before, rs[0])
    ensures before + [rs[0]] + Admitted(accepts, before + [rs[0]], rs[1..]) == before + Admitted(accepts, before, rs)
  {
    var q := Admitted(accepts, before + [rs[0]], rs[1..]);
    assert Admitted(accepts, before, rs) == [rs[0]] + q;
    assert before + [rs[0]] + q == before + ([rs[0]] + q);
  }

  /** Once the first request is accepted, the rest are judged against the log that holds it. */
  lemma AllAcceptedCons(accepts: Oracle, before: seq<Request>, rs: seq<Request>)
    requires rs != [] && accepts(before, rs[0])
    ensures AllAccepted(accepts, before, rs) <==> AllAccepted(accepts, before + [rs[0]], rs[1..])
  {
    var b1 := before + [rs[0]];
    forall i | 0 < i < |rs| ensures before + rs[..i] == b1 + rs[1..][..i - 1] && rs[i] == rs[1..][i - 1] {
      assert rs[..i] == [rs[0]] + rs[1..][..i - 1];
    }
    assert before + rs[..0] == before;
    if AllAccepted(accepts, b1, rs[1..]) {
      forall i | 0 <= i < |rs| ensures accepts(before + rs[..i], rs[i]) {
        if i > 0 { assert accepts(b1 + rs[1..][..i - 1], rs[1..][i - 1]); }
      }
    }
    if AllAccepted(accepts, before, rs) {
      forall j | 0 <= j < |rs[1..]| ensures accepts(b1 + rs[1..][..j], rs[1..][j]) {
        assert accepts(before + rs[..j + 1], rs[j + 1]);
      }
    }
  }

  lemma IssuedNothing(accepts: Oracle, c: seq<Request>)
    ensures Issued(accepts, c, [], c, true)
  {
  }

  /** A run that went through appended every request. */
  lemma {:induction false} IssuedAll(accepts: Oracle, c0: seq<Request>, rs: seq<Request>, c1: seq<Request>)
    requires Issued(accepts, c0, rs, c1, true)
    ensures c1 == c0 + rs
    decreases |rs|
  {
    if rs == [] {
      assert c0 + [] == c0;
    } else {
      IssuedAll(accepts, c0 + [rs[0]], rs[1..], c1);
      assert c0 + [rs[0]] + rs[1..] == c0 + rs;
    }
  }

  /** Two runs in a row, the first of which went through, are one run of both request lists. */
  lemma {:induction false} IssuedSeq(accepts: Oracle, c0: seq<Request>, a: seq<Request>, c1: seq<Request>,
                                     b: seq<Request>, c2: seq<Request>, ok: bool)
    requires Issued(accepts, c0, a, c1, true) && Issued(accepts, c1, b, c2, ok)
    ensures Issued(accepts, c0, a + b, c2, ok)
    decreases |a|
  {
    if a == [] {
      assert a + b == b;
    } else {
      assert (a + b)[0] == a[0] && (a + b)[1..] == a[1..] + b;
      IssuedSeq(accepts, c0 + [a[0]], a[1..], c1, b, c2, ok);
    }
  }

  /** After an abort nothing more is asked for. */
  lemma {:induction false} IssuedStop(accepts: Oracle, c0: seq<Request>, a: seq<Request>, c1: seq<Request>, b: seq<Request>)
    requires Issued(accepts, c0, a, c1, false)
    ensures Issued(accepts, c0, a + b, c1, false)
    decreases |a|
  {
    assert a != [];
    assert (a + b)[0] == a[0] && (a + b)[1..] == a[1..] + b;
    if accepts(c0, a[0]) {
      IssuedStop(accepts, c0 + [a[0]], a[1..], c1, b);
    }
  }

  /** A refusal inside a prefix of `rs` is an abort of the run of all of `rs`. */
  lemma IssuedPrefix(accepts: Oracle, c0: seq<Request>, p: seq<Request>, rs: seq<Request>, c1: seq<Request>)
    requires |p| <= |rs| && p == rs[..|p|] && Issued(accepts, c0, p, c1, false)
    ensures Issued(accepts, c0, rs, c1, false)
  {
    assert rs == p + rs[|p|..];
    IssuedStop(accepts, c0, p, c1, rs[|p|..]);
  }

  class Device {
    /** Whether the driver creates what it is asked for, given what it created already; a refusal aborts the caller. */
    const accepts: Oracle
    /** The viewport CD3D11_VIEWPORT derives from a texture and one of its render-target views. */
    const viewportOf: (TextureDesc, ViewDesc) -> Viewport
    const immediate: Context
    /** Every object created so far, in order; a handle indexes this log. */
    var created: seq<Request>

    constructor (accepts: Oracle, viewportOf: (TextureDesc, ViewDesc) -> Viewport)
      ensures this.accepts == accepts && this.viewportOf == viewportOf && created == []
      ensures fresh(immediate) && immediate.state == Unbound && immediate.log == []
    {
      this.accepts := accepts;
      this.viewportOf := viewportOf;
      immediate := new Context();
      created := [];
    }

    method Create(r: Request) returns (h: Option<Handle>)
      modifies this
      ensures created == old(created) + (if accepts(old(created), r) then [r] else [])
      ensures h == if accepts(old(created), r) then Some(|old(created)|) else None
      ensures Issued(accepts, old(created), [r], created, h.Some?)
    {
      assert [r][1..] == [];
      if accepts(created, r) {
        h := Some(|created|);
        created := created + [r];
      } else {
        h := None;
      }
    }
  }

  // ---------------------------------------------------------------------------
  // The immediate context: bound state and command log
  // ---------------------------------------------------------------------------

  datatype Viewport = Viewport(topLeftX: real, topLeftY: real, width: real, height: real,
                               minDepth: real, maxDepth: real)

  /** State objects, shaders and the input layout, named by what the application asks its providers for. */
  datatype RasterizerState = CullNone
  datatype InputLayout = SharedVertexLayout
  datatype ShaderRef =
    | VertexShader(vsName: string)
    | PixelShader(psName: string)
    | ComputeShader(csName: string)
  datatype Topology = TopologyUndefined | TriangleList | TriangleStrip

  datatype VertexBinding = VertexBinding(buffer: Option<Handle>, stride: uint32, offset: uint32)
  datatype IndexBinding = IndexBinding(buffer: Option<Handle>, format: Format, offset: uint32)

  /** Everything bound to the pipeline; a slot missing from a map is bound to null. */
  datatype Bindings = Bindings(
    rtv: Option<Handle>, dsv: Option<Handle>, omUAV: Option<Handle>,
    viewport: Viewport,
    rasterizer: Option<RasterizerState>,
    inputLayout: Option<InputLayout>, vertexBuffer: VertexBinding, indexBuffer: IndexBinding,
    topology: Topology,
    vs: Option<ShaderRef>, gs: Option<ShaderRef>, ps: Option<ShaderRef>, cs: Option<ShaderRef>,
    vsCB: map<nat, Handle>, csCB: map<nat, Handle>,
    psSRV: map<nat, Handle>, csSRV: map<nat, Handle>, csUAV: map<nat, Handle>)

  const NoViewport := Viewport(0.0, 0.0, 0.0, 0.0, 0.0, 0.0)

  const Unbound := Bindings(None, None, None, NoViewport, None, None,
                            VertexBinding(None, 0, 0), IndexBinding(None, Unknown, 0), TopologyUndefined,
                            None, None, None, None, map[], map[], map[], map[], map[])

  /** DirectX::Colors::Transparent. */
  const Transparent: seq<real> := [0.0, 0.0, 0.0, 0.0]

  datatype Command =
    | ClearRTVCall(rtv: Handle, color: seq<real>)
    | ClearUAVUintCall(uav: Handle, values: seq<uint32>)
    | UpdateSubresourceCall(buffer: Handle)
    | DrawCall(vertexCount: uint32, startVertex: uint32, at: Bindings)
    | DrawIndexedCall(indexCount: uint32, startIndex: uint32, baseVertex: int, at: Bindings)
    | DispatchCall(groupsX: uint32, groupsY: uint32, groupsZ: uint32, at: Bindings)

  /** Binds `v` to `slot`, or unbinds the slot when `v` is null. */
  function Bind(m: map<nat, Handle>, slot: nat, v: Option<Handle>): (r: map<nat, Handle>)
    ensures v.Some? ==> slot in r && r[slot] == v.value
    ensures v.None? ==> slot !in r
    ensures forall s :: s != slot ==> (s in r <==> s in m) && (s in m ==> r[s] == m[s])
  {
    if v.Some? then m[slot := v.value] else m - {slot}
  }

  /** Binds `vs` to the consecutive slots `start`, `start + 1`, ... */
  function BindRange(m: map<nat, Handle>, start: nat, vs: seq<Option<Handle>>): map<nat, Handle>
    decreases |vs|
  {
    if vs == [] then m else BindRange(Bind(m, start, vs[0]), start + 1, vs[1..])
  }

  class Context {
    var state: Bindings
    var log: seq<Command>

    constructor ()
      ensures state == Unbound && log == []
    {
      state := Unbound;
      log := [];
    }

    method OMSetRenderTargets(rtv: Option<Handle>, dsv: Option<Handle>)
      modifies this
      ensures state == old(state).(rtv := rtv, dsv := dsv) && log == old(log)
    {
      state := state.(rtv := rtv, dsv := dsv);
    }

    /** OMSetRenderTargetsAndUnorderedAccessViews with no render target, no depth buffer and one UAV at slot 0. */
    method OMSetUnorderedAccessViewOnly(uav: Option<Handle>)
      modifies this
      ensures state == old(state).(rtv := None, dsv := None, omUAV := uav) && log == old(log)
    {
      state := state.(rtv := None, dsv := None, omUAV := uav);
    }

    method RSSetViewport(vp: Viewport)
      modifies this
      ensures state == old(state).(viewport := vp) && log == old(log)
    {
      state := state.(viewport := vp);
    }

    method RSSetState(rs: Option<RasterizerState>)
      modifies this
      ensures state == old(state).(rasterizer := rs) && log == old(log)
    {
      state := state.(rasterizer := rs);
    }

    method IASetInputLayout(layout: Option<InputLayout>)
      modifies this
      ensures state == old(state).(inputLayout := layout) && log == old(log)
    {
      state := state.(inputLayout := layout);
    }

    method IASetVertexBuffer(buffer: Option<Handle>, stride: uint32, offset: uint32)
      modifies this
      ensures state == old(state).(vertexBuffer := VertexBinding(buffer, stride, offset)) && log == old(log)
    {
      state := state.(vertexBuffer := VertexBinding(buffer, stride, offset));
    }

    method IASetIndexBuffer(buffer: Option<Handle>, format: Format, offset: uint32)
      modifies this
      ensures state == old(state).(indexBuffer := IndexBinding(buffer, format, offset)) && log == old(log)
    {
      state := state.(indexBuffer := IndexBinding(buffer, format, offset));
    }

    method IASetPrimitiveTopology(t: Topology)
      modifies this
      ensures state == old(state).(topology := t) && log == old(log)
    {
      state := state.(topology := t);
    }

    method VSSetShader(s: Option<ShaderRef>)
      modifies this
      ensures state == old(state).(vs := s) && log == old(log)
    {
      state := state.(vs := s);
    }

    method GSSetShader(s: Option<ShaderRef>)
      modifies this
      ensures state == old(state).(gs := s) && log == old(log)
    {
      state := state.(gs := s);
    }

    method PSSetShader(s: Option<ShaderRef>)
      modifies this
      ensures state == old(state).(ps := s) && log == old(log)
    {
      state := state.(ps := s);
    }

    method CSSetShader(s: Option<ShaderRef>)
      modifies this
      ensures state == old(state).(cs := s) && log == old(log)
    {
      state := state.(cs := s);
    }

    method VSSetConstantBuffer(slot: nat, buffer: Option<Handle>)
      modifies this
      ensures state == old(state).(vsCB := Bind(old(state).vsCB, slot, buffer)) && log == old(log)
    {
      state := state.(vsCB := Bind(state.vsCB, slot, buffer));
    }

    method CSSetConstantBuffer(slot: nat, buffer: Option<Handle>)
      modifies this
      ensures state == old(state).(csCB := Bind(old(state).csCB, slot, buffer)) && log == old(log)
    {
      state := state.(csCB := Bind(state.csCB, slot, buffer));
    }

    method PSSetShaderResource(slot: nat, srv: Option<Handle>)
      modifies this
      ensures state == old(state).(psSRV := Bind(old(state).psSRV, slot, srv)) && log == old(log)
    {
      state := state.(psSRV := Bind(state.psSRV, slot, srv));
    }

    method CSSetShaderResources(start: nat, srvs: seq<Option<Handle>>)
      modifies this
      ensures state == old(state).(csSRV := BindRange(old(state).csSRV, start, srvs)) && log == old(log)
    {
      state := state.(csSRV := BindRange(state.csSRV, start, srvs));
    }

    method CSSetUnorderedAccessView(slot: nat, uav: Option<Handle>)
      modifies this
      ensures state == old(state).(csUAV := Bind(old(state).csUAV, slot, uav)) && log == old(log)
    {
      state := state.(csUAV := Bind(state.csUAV, slot, uav));
    }

    method ClearRenderTargetView(rtv: Handle, color: seq<real>)
      modifies this
      ensures state == old(state) && log == old(log) + [ClearRTVCall(rtv, color)]
    {
      log := log + [ClearRTVCall(rtv, color)];
    }

    method ClearUnorderedAccessViewUint(uav: Handle, values: seq<uint32>)
      modifies this
      ensures state == old(state) && log == old(log) + [ClearUAVUintCall(uav, values)]
    {
      log := log + [ClearUAVUintCall(uav, values)];
    }

    /** The bytes uploaded are not modelled, only which buffer receives them. */
    method UpdateSubresource(buffer: Handle)
      modifies this
      ensures state == old(state) && log == old(log) + [UpdateSubresourceCall(buffer)]
    {
      log := log + [UpdateSubresourceCall(buffer)];
    }

    method Draw(vertexCount: uint32, startVertex: uint32)
      modifies this
      ensures state == old(state) && log == old(log) + [DrawCall(vertexCount, startVertex, old(state))]
    {
      log := log + [DrawCall(vertexCount, startVertex, state)];
    }

    method DrawIndexed(indexCount: uint32, startIndex: uint32, baseVertex: int)
      modifies this
      ensures state == old(state) && log == old(log) + [DrawIndexedCall(indexCount, startIndex, baseVertex, old(state))]
    {
      log := log + [DrawIndexedCall(indexCount, startIndex, baseVertex, state)];
    }

    method Dispatch(x: uint32, y: uint32, z: uint32)
      modifies this
      ensures state == old(state) && log == old(log) + [DispatchCall(x, y, z, old(state))]
    {
      log := log + [DispatchCall(x, y, z, state)];
    }
  }
}
