// The sparse-volume renderer of SparseVolumeX (Content/SparseVolume.cpp).  Each frame
// peels the mesh into a k-buffer of depths twice, once from the light and once from the
// eye, and a compute pass composites the two k-buffers into the swap chain.

module Content {
  import opened D3D
  import opened XSDXViews
  import opened XSDX

  // ---------------------------------------------------------------------------
  // Constants
  // ---------------------------------------------------------------------------

  const BasePassVS: ShaderRef := VertexShader("VS_BASEPASS")
  const DepthPeelPS: ShaderRef := PixelShader("PS_DEPTH_PEEL")
  const RenderCS: ShaderRef := ComputeShader("CS_RENDER")

  /** sizeof(CBMatrices): world-view-projection, world and inverse world, three 4x4 float matrices. */
  const CBMatricesSize: uint32 := 3 * 64
  /** sizeof(CBPerObject): light view-projection and screen-to-world, two 4x4 float matrices. */
  const CBPerObjectSize: uint32 := 2 * 64

  const VertexBufferFlags: bv8 := 0x01
  const IndexBufferFlags: bv8 := 0x02
  /** Texture2D::Create's default bind flags: SHADER_RESOURCE | UNORDERED_ACCESS. */
  const KBufferFlags: bv8 := 0x88
  /** Texture2D::Create's default element stride, in bytes. */
  const KBufferStride: uint8 := 4

  /** The bits of 1.0f, which both peeling passes clear their k-buffer to. */
  const ClearDepthBits: uint32 := 0x3F80_0000
  /** XMVECTORU32{ { uClearDepth } }: the first component is the depth, the others are zero. */
  const ClearDepthValues: seq<uint32> := [ClearDepthBits, 0, 0, 0]

  /** A compute thread group of CS_RENDER covers 2^5 x 2^5 pixels. */
  const GroupShift: nat := 5

  /** The clear value is the binary32 encoding of 1.0: sign 0, biased exponent 127, fraction 0. */
  lemma ClearDepthIsOne()
    ensures ClearDepthBits == Binary32Bits(0, 127, 0)
    ensures ClearDepthValues[0] == ClearDepthBits && ClearDepthValues[1..] == [0, 0, 0]
  {
  }

  /** What ObjLoader::Import hands back for a mesh it could read. */
  datatype Mesh = Mesh(numVertices: uint32, vertexStride: uint32, numIndices: uint32,
                       center: (real, real, real), radius: real)

  // ---------------------------------------------------------------------------
  // What Init asks the device for
  // ---------------------------------------------------------------------------

  /** RawBuffer::Create(byteWidth, bindFlags, data) with its defaults: no UAV flags, DEFAULT usage. */
  function MeshBufferRequests(t: Handle, byteWidth: uint32, bindFlags: bv8): seq<Request> {
    BufferRequests(t, RawBufferDesc(byteWidth, bindFlags, UsageDefault), true,
                   Has(bindFlags as bv32, BindShaderResource), RawSRV(byteWidth),
                   Has(bindFlags as bv32, BindUnorderedAccess), RawUAV(byteWidth, 0))
  }

  /** The vertex buffer: stride * numVertices bytes (the product wraps at 2^32). */
  function VertexBufferDesc(m: Mesh): BufferDesc {
    RawBufferDesc(Mul32(m.vertexStride, m.numVertices), VertexBufferFlags, UsageDefault)
  }

  /** The index buffer: one 32-bit index per index (the product wraps at 2^32). */
  function IndexBufferDesc(m: Mesh): BufferDesc {
    RawBufferDesc(Mul32(4, m.numIndices), IndexBufferFlags, UsageDefault)
  }

  /**
   * A vertex or index buffer bound neither as a shader resource nor for unordered access is
   * a single buffer request carrying the mesh data and no view.
   */
  lemma MeshBufferIsOneRequest(t: Handle, byteWidth: uint32, bindFlags: bv8)
    requires bindFlags == VertexBufferFlags || bindFlags == IndexBufferFlags
    ensures MeshBufferRequests(t, byteWidth, bindFlags)
         == [NewBuffer(RawBufferDesc(byteWidth, bindFlags, UsageDefault), Some(InitData(0, 0)))]
    ensures !Has(RawBufferDesc(byteWidth, bindFlags, UsageDefault).miscFlags, MiscBufferAllowRawViews)
  {
    assert !Has(bindFlags as bv32, BindShaderResource) && !Has(bindFlags as bv32, BindUnorderedAccess);
  }

  /** CD3D11_BUFFER_DESC(size, CONSTANT_BUFFER) with its defaults: DEFAULT usage, no CPU access, no flags. */
  function ConstantBufferDesc(size: uint32): (d: BufferDesc)
    ensures d.byteWidth == size && d.usage == UsageDefault && d.bindFlags == BindConstantBuffer
    ensures d.cpuAccess == 0 && d.miscFlags == 0 && d.structureByteStride == 0
  {
    BufferDesc(size, UsageDefault, BindConstantBuffer, 0, 0, 0)
  }

  /** createCBs: the matrices, the light-space matrices, the per-object data, none initialised. */
  function ConstantBufferRequests(): seq<Request> {
    [NewBuffer(ConstantBufferDesc(CBMatricesSize), None),
     NewBuffer(ConstantBufferDesc(CBMatricesSize), None),
     NewBuffer(ConstantBufferDesc(CBPerObjectSize), None)]
  }

  /** A k-buffer: a width x height array of `layers` 32-bit unsigned depths, one mip, no initial data. */
  function KBufferDesc(width: uint32, height: uint32, layers: uint32): (d: TextureDesc)
    ensures d.Texture2DDesc? && d.width == width && d.height == height && d.arraySize == layers
    ensures d.format == R32Uint && d.mipLevels == 1 && d.usage == UsageDefault
    ensures Has(d.bindFlags, BindShaderResource) && Has(d.bindFlags, BindUnorderedAccess)
  {
    Texture2DCreateDesc(width, height, layers, R32Uint, KBufferFlags, 1, UsageDefault)
  }

  /** Texture2D::Create for a k-buffer: the texture, then its SRV, then its UAV. */
  function KBufferRequests(t: Handle, width: uint32, height: uint32, layers: uint32): seq<Request> {
    Texture2DRequests(t, KBufferDesc(width, height, layers), Texture2DInit(false, width, KBufferStride),
                      layers, KBufferFlags, 1)
  }

  /** A k-buffer takes three objects: the texture, one SRV over all of it, and the UAV of its one mip. */
  lemma KBufferLayout(t: Handle, width: uint32, height: uint32, layers: uint32)
    ensures KBufferRequests(t, width, height, layers)
         == [NewTexture(KBufferDesc(width, height, layers), None),
             NewView(t, FullSRV2D(layers, 1)),
             NewView(t, UAV2D(layers, 0))]
  {
    var srv := Texture2DSRVRequests(t, layers, 1, 1);
    assert srv == [NewView(t, FullSRV2D(layers, 1))];
    assert UAVs2D(layers, 1) == [UAV2D(layers, 0)];
    assert ViewRequests(t, UAVs2D(layers, 1)) == [NewView(t, UAV2D(layers, 0))];
  }

  /**
   * Init after a successful import: the vertex buffer, the index buffer, the three constant
   * buffers, the eye k-buffer and the light k-buffer, in this order.
   */
  function InitRequests(t: Handle, width: uint32, height: uint32, m: Mesh, layers: uint32, shadowMapSize: uint32)
    : seq<Request>
  {
    MeshRequests(t, m) + RestRequests(t + 2, width, height, layers, shadowMapSize)
  }

  /** createVB, then createIB. */
  function MeshRequests(t: Handle, m: Mesh): seq<Request> {
    MeshBufferRequests(t, Mul32(m.vertexStride, m.numVertices), VertexBufferFlags)
    + MeshBufferRequests(t + 1, Mul32(4, m.numIndices), IndexBufferFlags)
  }

  /** createCBs, then the eye and the light k-buffers. */
  function RestRequests(t: Handle, width: uint32, height: uint32, layers: uint32, shadowMapSize: uint32)
    : seq<Request>
  {
    ConstantBufferRequests()
    + (KBufferRequests(t + 3, width, height, layers) + KBufferRequests(t + 6, shadowMapSize, shadowMapSize, layers))
  }

  /** Init creates eleven objects, and the object at each handle is the one the renderer keeps there. */
  lemma InitLayout(t: Handle, width: uint32, height: uint32, m: Mesh, layers: uint32, shadowMapSize: uint32)
    ensures var rs := InitRequests(t, width, height, m, layers, shadowMapSize);
            && |rs| == 11
            && rs[0] == NewBuffer(VertexBufferDesc(m), Some(InitData(0, 0)))
            && rs[1] == NewBuffer(IndexBufferDesc(m), Some(InitData(0, 0)))
            && rs[2..5] == ConstantBufferRequests()
            && rs[5] == NewTexture(KBufferDesc(width, height, layers), None)
            && rs[6] == NewView(t + 5, FullSRV2D(layers, 1)) && rs[7] == NewView(t + 5, UAV2D(layers, 0))
            && rs[8] == NewTexture(KBufferDesc(shadowMapSize, shadowMapSize, layers), None)
            && rs[9] == NewView(t + 8, FullSRV2D(layers, 1)) && rs[10] == NewView(t + 8, UAV2D(layers, 0))
  {
    MeshBufferIsOneRequest(t, Mul32(m.vertexStride, m.numVertices), VertexBufferFlags);
    MeshBufferIsOneRequest(t + 1, Mul32(4, m.numIndices), IndexBufferFlags);
    KBufferLayout(t + 5, width, height, layers);
    KBufferLayout(t + 8, shadowMapSize, shadowMapSize, layers);
  }

  // ---------------------------------------------------------------------------
  // What the passes bind
  // ---------------------------------------------------------------------------

  /** The objects one depth-peeling pass works with. */
  datatype Peel = Peel(kBufferUAV: Handle, matrices: Handle, vertexBuffer: Handle, vertexStride: uint32,
                       indexBuffer: Handle, numIndices: uint32)

  /** CD3D11_VIEWPORT(0, 0, size, size): a square viewport with the default depth range [0, 1]. */
  function ShadowViewport(size: uint32): (vp: Viewport)
    ensures vp.topLeftX == 0.0 && vp.topLeftY == 0.0 && vp.width == vp.height == size as real
    ensures vp.minDepth == 0.0 && vp.maxDepth == 1.0
  {
    Viewport(0.0, 0.0, size as real, size as real, 0.0, 1.0)
  }

  /**
   * The bindings depthPeel draws with: the k-buffer UAV as the only output, no culling, the
   * matrices in vertex-shader slot 0, the mesh as an indexed triangle list of 32-bit indices,
   * VS_BASEPASS and PS_DEPTH_PEEL; neither the viewport nor any compute binding changes.
   */
  function PeelDraw(s: Bindings, p: Peel, layout: Option<InputLayout>): (d: Bindings)
    ensures d.rtv == None && d.dsv == None && d.omUAV == Some(p.kBufferUAV) && d.rasterizer == Some(CullNone)
    ensures 0 in d.vsCB && d.vsCB[0] == p.matrices
    ensures forall slot :: slot != 0 ==> (slot in d.vsCB <==> slot in s.vsCB)
    ensures forall slot :: slot != 0 && slot in s.vsCB ==> d.vsCB[slot] == s.vsCB[slot]
    ensures d.inputLayout == layout && d.topology == TriangleList
    ensures d.vertexBuffer == VertexBinding(Some(p.vertexBuffer), p.vertexStride, 0)
    ensures d.indexBuffer == IndexBinding(Some(p.indexBuffer), R32Uint, 0)
    ensures d.vs == Some(BasePassVS) && d.ps == Some(DepthPeelPS) && d.gs == s.gs
    ensures d.viewport == s.viewport && d.psSRV == s.psSRV
    ensures d.cs == s.cs && d.csCB == s.csCB && d.csSRV == s.csSRV && d.csUAV == s.csUAV
  {
    s.(rtv := None, dsv := None, omUAV := Some(p.kBufferUAV), rasterizer := Some(CullNone),
       vsCB := Bind(s.vsCB, 0, Some(p.matrices)), inputLayout := layout,
       vertexBuffer := VertexBinding(Some(p.vertexBuffer), p.vertexStride, 0),
       indexBuffer := IndexBinding(Some(p.indexBuffer), R32Uint, 0), topology := TriangleList,
       vs := Some(BasePassVS), ps := Some(DepthPeelPS))
  }

  /** depthPeelLightSpace draws with the same bindings through the shadow-map viewport. */
  function LightPeelDraw(s: Bindings, p: Peel, layout: Option<InputLayout>, shadowMapSize: uint32): (d: Bindings)
    ensures d.viewport == ShadowViewport(shadowMapSize)
    ensures d == PeelDraw(s, p, layout).(viewport := ShadowViewport(shadowMapSize))
  {
    s.(rtv := None, dsv := None, omUAV := Some(p.kBufferUAV), viewport := ShadowViewport(shadowMapSize),
       rasterizer := Some(CullNone), vsCB := Bind(s.vsCB, 0, Some(p.matrices)), inputLayout := layout,
       vertexBuffer := VertexBinding(Some(p.vertexBuffer), p.vertexStride, 0),
       indexBuffer := IndexBinding(Some(p.indexBuffer), R32Uint, 0), topology := TriangleList,
       vs := Some(BasePassVS), ps := Some(DepthPeelPS))
  }

  /**
   * The bindings either peeling pass leaves: the render target and depth stencil recorded at
   * its start are back, the viewport is what it was, no input layout and no rasterizer state
   * are bound, and the rest stays as the pass set it.
   */
  function PeelEnd(s: Bindings, p: Peel, layout: Option<InputLayout>): (e: Bindings)
    ensures e.rtv == s.rtv && e.dsv == s.dsv && e.viewport == s.viewport
    ensures e.inputLayout == None && e.rasterizer == None
    ensures e.omUAV == Some(p.kBufferUAV)
    ensures e.cs == s.cs && e.csCB == s.csCB && e.csSRV == s.csSRV && e.csUAV == s.csUAV
  {
    PeelDraw(s, p, layout).(inputLayout := None, rasterizer := None, rtv := s.rtv, dsv := s.dsv)
  }

  /** One pass's commands: clear the k-buffer to 1.0, then draw every index of the mesh. */
  function PeelCommands(p: Peel, at: Bindings): seq<Command> {
    [ClearUAVUintCall(p.kBufferUAV, ClearDepthValues), DrawIndexedCall(p.numIndices, 0, 0, at)]
  }

  /** BindRange over two slots is two binds. */
  lemma BindRangeTwo(m: map<nat, Handle>, start: nat, a: Option<Handle>, b: Option<Handle>)
    ensures BindRange(m, start, [a, b]) == Bind(Bind(m, start, a), start + 1, b)
  {
    assert [a, b][1..] == [b];
    assert [b][1..] == [];
    calc {
      BindRange(m, start, [a, b]);
      BindRange(Bind(m, start, a), start + 1, [b]);
      BindRange(Bind(Bind(m, start, a), start + 1, b), start + 2, []);
    }
  }

  /** The objects the composite pass works with. */
  datatype CompositeViews = CompositeViews(target: Handle, depthSRV: Handle, depthSRVLS: Handle, perObject: Handle)

  /** render's dispatch bindings: the target UAV and both k-buffer SRVs from slot 0, CS_RENDER. */
  function CompositeDispatch(s: Bindings, c: CompositeViews): (d: Bindings)
    ensures 0 in d.csUAV && d.csUAV[0] == c.target
    ensures 0 in d.csSRV && d.csSRV[0] == c.depthSRV && 1 in d.csSRV && d.csSRV[1] == c.depthSRVLS
    ensures 0 in d.csCB && d.csCB[0] == c.perObject && d.cs == Some(RenderCS)
    ensures d.rtv == s.rtv && d.dsv == s.dsv && d.omUAV == s.omUAV && d.viewport == s.viewport
  {
    BindRangeTwo(s.csSRV, 0, Some(c.depthSRV), Some(c.depthSRVLS));
    s.(csUAV := Bind(s.csUAV, 0, Some(c.target)),
       csSRV := BindRange(s.csSRV, 0, [Some(c.depthSRV), Some(c.depthSRVLS)]),
       csCB := Bind(s.csCB, 0, Some(c.perObject)), cs := Some(RenderCS))
  }

  /** What render leaves: its two SRV slots and its UAV slot are null again, nothing else moves. */
  function CompositeEnd(s: Bindings, c: CompositeViews): (e: Bindings)
    ensures 0 !in e.csSRV && 1 !in e.csSRV && 0 !in e.csUAV
    ensures forall slot :: slot > 1 ==> (slot in e.csSRV <==> slot in s.csSRV)
    ensures forall slot :: slot > 1 && slot in s.csSRV ==> e.csSRV[slot] == s.csSRV[slot]
    ensures e.rtv == s.rtv && e.dsv == s.dsv && e.omUAV == s.omUAV && e.viewport == s.viewport
    ensures e.cs == Some(RenderCS) && 0 in e.csCB && e.csCB[0] == c.perObject
  {
    var d := CompositeDispatch(s, c);
    BindRangeTwo(d.csSRV, 0, None, None);
    BindRangeTwo(s.csSRV, 0, Some(c.depthSRV), Some(c.depthSRVLS));
    d.(csSRV := BindRange(d.csSRV, 0, [None, None]), csUAV := Bind(d.csUAV, 0, None))
  }

  /** One thread group per 32 x 32 tile, rounding down: Width >> 5 by Height >> 5 by 1. */
  function DispatchCommand(s: Bindings, c: CompositeViews, output: TextureDesc): Command {
    DispatchCall(ShiftRight(output.width, GroupShift), ShiftRight(output.height, GroupShift), 1,
                 CompositeDispatch(s, c))
  }

  /** The groups cover the largest multiple of 32 that fits each extent; at most 31 pixels are left over. */
  lemma DispatchCoversOutput(output: TextureDesc)
    ensures var x := ShiftRight(output.width, GroupShift);
            32 * x <= output.width < 32 * x + 32
    ensures var y := ShiftRight(output.height, GroupShift);
            32 * y <= output.height < 32 * y + 32
  {
    assert Pow2(GroupShift) == 32;
    ShiftRightDivides(output.width, GroupShift);
    ShiftRightDivides(output.height, GroupShift);
  }

  // ---------------------------------------------------------------------------
  // One frame: depthPeelLightSpace, depthPeel, render
  // ---------------------------------------------------------------------------

  /** Everything a frame binds, as Init left it. */
  datatype Scene = Scene(eye: Peel, light: Peel, composite: CompositeViews, layout: Option<InputLayout>,
                         shadowMapSize: uint32)

  function AfterLightPass(s: Bindings, sc: Scene): Bindings {
    PeelEnd(s, sc.light, sc.layout)
  }

  function AfterEyePass(s: Bindings, sc: Scene): Bindings {
    PeelEnd(AfterLightPass(s, sc), sc.eye, sc.layout)
  }

  /** Render's commands: the light pass, the eye pass, then the composite dispatch. */
  function FrameCommands(s: Bindings, sc: Scene, output: TextureDesc): seq<Command> {
    PeelCommands(sc.light, LightPeelDraw(s, sc.light, sc.layout, sc.shadowMapSize))
    + PeelCommands(sc.eye, PeelDraw(AfterLightPass(s, sc), sc.eye, sc.layout))
    + [DispatchCommand(AfterEyePass(s, sc), sc.composite, output)]
  }

  function FrameEnd(s: Bindings, sc: Scene): Bindings {
    CompositeEnd(AfterEyePass(s, sc), sc.composite)
  }

  /** Every draw in `log` comes straight after a clear of the UAV it draws into. */
  ghost predicate ClearedBeforeDraw(log: seq<Command>) {
    forall i :: 0 <= i < |log| && log[i].DrawIndexedCall? ==>
      && log[i].at.omUAV.Some?
      && 0 < i && log[i - 1] == ClearUAVUintCall(log[i].at.omUAV.value, ClearDepthValues)
  }

  /**
   * A frame peels from the light, then from the eye, each into its own k-buffer cleared just
   * before; the eye pass sees the caller's viewport again; the dispatch sees both k-buffers and
   * the caller's render target; and the frame ends with the caller's targets and viewport bound
   * and the composite's views unbound.
   */
  lemma FrameShape(s: Bindings, sc: Scene, output: TextureDesc)
    ensures var cmds := FrameCommands(s, sc, output);
            && |cmds| == 5
            && ClearedBeforeDraw(cmds)
            && cmds[1].DrawIndexedCall? && cmds[1].at.omUAV == Some(sc.light.kBufferUAV)
            && cmds[1].at.viewport == ShadowViewport(sc.shadowMapSize)
            && cmds[1].at.vsCB[0] == sc.light.matrices && cmds[1].indexCount == sc.light.numIndices
            && cmds[3].DrawIndexedCall? && cmds[3].at.omUAV == Some(sc.eye.kBufferUAV)
            && cmds[3].at.viewport == s.viewport
            && cmds[3].at.vsCB[0] == sc.eye.matrices && cmds[3].indexCount == sc.eye.numIndices
            && cmds[3].at.rtv == None && cmds[3].at.dsv == None
            && cmds[4].DispatchCall? && cmds[4].at.rtv == s.rtv && cmds[4].at.dsv == s.dsv
            && cmds[4].at.csSRV[0] == sc.composite.depthSRV && cmds[4].at.csSRV[1] == sc.composite.depthSRVLS
            && cmds[4].at.csUAV[0] == sc.composite.target
    ensures var e := FrameEnd(s, sc);
            && e.rtv == s.rtv && e.dsv == s.dsv && e.viewport == s.viewport
            && e.inputLayout == None && e.rasterizer == None
            && 0 !in e.csSRV && 1 !in e.csSRV && 0 !in e.csUAV
  {
    var cmds := FrameCommands(s, sc, output);
    var light := LightPeelDraw(s, sc.light, sc.layout, sc.shadowMapSize);
    var eye := PeelDraw(AfterLightPass(s, sc), sc.eye, sc.layout);
    assert cmds == [ClearUAVUintCall(sc.light.kBufferUAV, ClearDepthValues),
                    DrawIndexedCall(sc.light.numIndices, 0, 0, light),
                    ClearUAVUintCall(sc.eye.kBufferUAV, ClearDepthValues),
                    DrawIndexedCall(sc.eye.numIndices, 0, 0, eye),
                    DispatchCommand(AfterEyePass(s, sc), sc.composite, output)];
    assert light.omUAV == Some(sc.light.kBufferUAV) && eye.omUAV == Some(sc.eye.kBufferUAV);
  }

  // ---------------------------------------------------------------------------
  // UpdateFrame
  // ---------------------------------------------------------------------------

  /** One UpdateSubresource per constant buffer that exists, in order; a missing one is skipped. */
  function Uploads(cbs: seq<Option<BufferRef>>): (cmds: seq<Command>)
    ensures |cmds| <= |cbs|
    ensures forall k :: 0 <= k < |cmds| ==> cmds[k].UpdateSubresourceCall?
  {
    if cbs == [] then []
    else (if cbs[0].Some? then [UpdateSubresourceCall(cbs[0].value.handle)] else []) + Uploads(cbs[1..])
  }

  lemma UploadsCons(cb: Option<BufferRef>, rest: seq<Option<BufferRef>>)
    ensures Uploads([cb] + rest) == (if cb.Some? then [UpdateSubresourceCall(cb.value.handle)] else []) + Uploads(rest)
  {
    assert ([cb] + rest)[1..] == rest;
  }

  /** The buffers Uploads writes are exactly the existing ones, in order. */
  lemma {:induction false} UploadsExactly(cbs: seq<Option<BufferRef>>)
    ensures |Uploads(cbs)| == |Present(cbs)|
    ensures forall k :: 0 <= k < |Uploads(cbs)| ==> Uploads(cbs)[k] == UpdateSubresourceCall(Present(cbs)[k].handle)
    decreases |cbs|
  {
    if cbs != [] {
      UploadsExactly(cbs[1..]);
    }
  }

  /** With no constant buffer at all, UpdateFrame uploads nothing. */
  lemma {:induction false} NoBuffersNoUploads(cbs: seq<Option<BufferRef>>)
    requires forall k :: 0 <= k < |cbs| ==> cbs[k].None?
    ensures Uploads(cbs) == []
  {
    UploadsExactly(cbs);
  }

  /** The buffers of `cbs` that exist, in order. */
  function Present(cbs: seq<Option<BufferRef>>): (bs: seq<BufferRef>)
    ensures |bs| <= |cbs|
    ensures forall b :: b in bs ==> Some(b) in cbs
    ensures (forall k :: 0 <= k < |cbs| ==> cbs[k].Some?) ==> |bs| == |cbs|
    ensures (forall k :: 0 <= k < |cbs| ==> cbs[k].None?) ==> bs == []
  {
    if cbs == [] then []
    else (if cbs[0].Some? then [cbs[0].value] else []) + Present(cbs[1..])
  }

  // ---------------------------------------------------------------------------
  // The renderer
  // ---------------------------------------------------------------------------

  class SparseVolume {
    const device: Device
    /** m_pDXContext: the device's immediate context. */
    const ctx: Context
    /** The class-wide m_pVertexLayout, as CreateVertexLayout left it. */
    const vertexLayout: Option<InputLayout>
    /** NUM_K_LAYERS: the depth layers of a k-buffer. */
    const numKLayers: uint32
    /** SHADOW_MAP_SIZE: the side of the light-space k-buffer. */
    const shadowMapSize: uint32

    var viewportSize: (real, real)
    var vertexStride: uint32
    var numIndices: uint32
    /** m_vBound: the mesh's centre and radius. */
    var bound: (real, real, real, real)
    var vb: RawBuffer?
    var ib: RawBuffer?
    var cbMatrices: Option<BufferRef>
    var cbMatricesLS: Option<BufferRef>
    var cbPerObject: Option<BufferRef>
    /** The k-buffer seen from the eye. */
    var kBufferDepth: Texture2D?
    /** The k-buffer seen from the light. */
    var kBufferDepthLS: Texture2D?

    constructor (device: Device, vertexLayout: Option<InputLayout>, numKLayers: uint32, shadowMapSize: uint32)
      ensures this.device == device && ctx == device.immediate && this.vertexLayout == vertexLayout
      ensures this.numKLayers == numKLayers && this.shadowMapSize == shadowMapSize
      ensures vertexStride == 0 && numIndices == 0
      ensures vb == null && ib == null && kBufferDepth == null && kBufferDepthLS == null
      ensures cbMatrices == None && cbMatricesLS == None && cbPerObject == None
    {
      this.device := device;
      ctx := device.immediate;
      this.vertexLayout := vertexLayout;
      this.numKLayers := numKLayers;
      this.shadowMapSize := shadowMapSize;
      viewportSize := (0.0, 0.0);
      vertexStride := 0;
      numIndices := 0;
      bound := (0.0, 0.0, 0.0, 0.0);
      vb := null;
      ib := null;
      cbMatrices := None;
      cbMatricesLS := None;
      cbPerObject := None;
      kBufferDepth := null;
      kBufferDepthLS := null;
    }

    /** Everything the passes dereference exists: what a successful Init leaves. */
    ghost predicate Ready()
      reads this, vb, ib, kBufferDepth, kBufferDepthLS
    {
      && vb != null && vb.buffer.Some? && ib != null && ib.buffer.Some?
      && cbMatrices.Some? && cbMatricesLS.Some? && cbPerObject.Some?
      && kBufferDepth != null && kBufferDepth.srv.Some? && |kBufferDepth.uavs| > 0
      && kBufferDepthLS != null && kBufferDepthLS.srv.Some? && |kBufferDepthLS.uavs| > 0
    }

    /** What depthPeel binds: the eye k-buffer's UAV, the matrices, and the mesh. */
    ghost function EyePeel(): Peel
      requires Ready()
      reads this, vb, ib, kBufferDepth, kBufferDepthLS
    {
      Peel(kBufferDepth.GetUAV(0).handle, cbMatrices.value.handle, vb.buffer.value.handle, vertexStride,
           ib.buffer.value.handle, numIndices)
    }

    /** What depthPeelLightSpace binds: the light k-buffer's UAV, the light-space matrices, and the mesh. */
    ghost function LightPeel(): Peel
      requires Ready()
      reads this, vb, ib, kBufferDepth, kBufferDepthLS
    {
      Peel(kBufferDepthLS.GetUAV(0).handle, cbMatricesLS.value.handle, vb.buffer.value.handle, vertexStride,
           ib.buffer.value.handle, numIndices)
    }

    /** What render binds: the swap-chain UAV `target`, both k-buffers' SRVs, the per-object data. */
    ghost function CompositeWith(target: Handle): CompositeViews
      requires Ready()
      reads this, vb, ib, kBufferDepth, kBufferDepthLS
    {
      CompositeViews(target, kBufferDepth.srv.value.handle, kBufferDepthLS.srv.value.handle, cbPerObject.value.handle)
    }

    ghost function SceneWith(target: Handle): Scene
      requires Ready()
      reads this, vb, ib, kBufferDepth, kBufferDepthLS
    {
      Scene(EyePeel(), LightPeel(), CompositeWith(target), vertexLayout, shadowMapSize)
    }

    /**
     * Records the output size, imports the mesh and, when that succeeds, creates the vertex
     * and index buffers, the constant buffers and the two k-buffers.  A failed import returns
     * at once with nothing created; a refusal by the device aborts.
     */
    method Init(width: uint32, height: uint32, mesh: Option<Mesh>) returns (ok: bool)
      modifies this, device
      ensures viewportSize == (width as real, height as real)
      ensures mesh.None? ==> ok && device.created == old(device.created)
      ensures mesh.None? ==> vb == old(vb) && ib == old(ib) && kBufferDepth == old(kBufferDepth)
                             && kBufferDepthLS == old(kBufferDepthLS) && cbMatrices == old(cbMatrices)
                             && cbMatricesLS == old(cbMatricesLS) && cbPerObject == old(cbPerObject)
      ensures mesh.None? ==> vertexStride == old(vertexStride) && numIndices == old(numIndices) && bound == old(bound)
      ensures mesh.Some? ==> Issued(device.accepts, old(device.created),
                                    InitRequests(|old(device.created)|, width, height, mesh.value, numKLayers, shadowMapSize),
                                    device.created, ok)
      ensures mesh.Some? && ok ==> InitDone(|old(device.created)|, width, height, mesh.value)
    {
      viewportSize := (width as real, height as real);
      if mesh.None? {
        return true;
      }
      var m := mesh.value;
      ghost var accepts := device.accepts;
      ghost var c0 := device.created;
      ghost var t := |c0|;
      ghost var rest := RestRequests(t + 2, width, height, numKLayers, shadowMapSize);
      ok := CreateMeshBuffers(m);
      ghost var c1 := device.created;
      if !ok {
        IssuedStop(accepts, c0, MeshRequests(t, m), c1, rest);
        return;
      }
      bound := (m.center.0, m.center.1, m.center.2, m.radius);
      ok := CreateRest(width, height);
      IssuedSeq(accepts, c0, MeshRequests(t, m), c1, rest, device.created, ok);
      assert ok ==> MeshBuffersFrom(t, m);
    }

    /** The first two steps of Init: createVB and createIB for the imported mesh. */
    method CreateMeshBuffers(m: Mesh) returns (ok: bool)
      modifies this`vertexStride, this`vb, this`numIndices, this`ib, device
      ensures Issued(device.accepts, old(device.created), MeshRequests(|old(device.created)|, m), device.created, ok)
      ensures ok ==> MeshBuffersFrom(|old(device.created)|, m) && |device.created| == |old(device.created)| + 2
    {
      ghost var accepts := device.accepts;
      ghost var c0 := device.created;
      ghost var t := |c0|;
      ghost var vbReqs := MeshBufferRequests(t, Mul32(m.vertexStride, m.numVertices), VertexBufferFlags);
      ghost var ibReqs := MeshBufferRequests(t + 1, Mul32(4, m.numIndices), IndexBufferFlags);
      MeshBufferIsOneRequest(t, Mul32(m.vertexStride, m.numVertices), VertexBufferFlags);
      ok := CreateVB(m.numVertices, m.vertexStride);
      ghost var c1 := device.created;
      if !ok {
        IssuedStop(accepts, c0, vbReqs, c1, ibReqs);
        return;
      }
      IssuedAll(accepts, c0, vbReqs, c1);
      ok := CreateIB(m.numIndices);
      IssuedSeq(accepts, c0, vbReqs, c1, ibReqs, device.created, ok);
      if ok {
        MeshBufferIsOneRequest(t + 1, Mul32(4, m.numIndices), IndexBufferFlags);
        IssuedAll(accepts, c1, ibReqs, device.created);
      }
    }

    /** The objects a successful Init leaves, numbered from t. */
    ghost predicate InitDone(t: Handle, width: uint32, height: uint32, m: Mesh)
      reads this, vb, ib, kBufferDepth, kBufferDepthLS
    {
      && MeshBuffersFrom(t, m)
      && ConstantBuffersFrom(t + 2)
      && KBuffersFrom(t + 5, width, height)
    }

    ghost predicate MeshBuffersFrom(t: Handle, m: Mesh)
      reads this, vb, ib
    {
      && vertexStride == m.vertexStride && numIndices == m.numIndices
      && vb != null && vb.buffer == Some(BufferRef(t, VertexBufferDesc(m)))
      && ib != null && ib.buffer == Some(BufferRef(t + 1, IndexBufferDesc(m)))
    }

    ghost predicate ConstantBuffersFrom(t: Handle)
      reads this
    {
      && cbMatrices == Some(BufferRef(t, ConstantBufferDesc(CBMatricesSize)))
      && cbMatricesLS == Some(BufferRef(t + 1, ConstantBufferDesc(CBMatricesSize)))
      && cbPerObject == Some(BufferRef(t + 2, ConstantBufferDesc(CBPerObjectSize)))
    }

    ghost predicate KBuffersFrom(t: Handle, width: uint32, height: uint32)
      reads this, kBufferDepth, kBufferDepthLS
    {
      && kBufferDepth != null && kBufferDepthLS != null
      && kBufferDepth.texture == Some(TextureRef(t, KBufferDesc(width, height, numKLayers)))
      && kBufferDepth.srv == Some(View(t + 1, FullSRV2D(numKLayers, 1)))
      && kBufferDepth.uavs == [View(t + 2, UAV2D(numKLayers, 0))]
      && kBufferDepthLS.texture == Some(TextureRef(t + 3, KBufferDesc(shadowMapSize, shadowMapSize, numKLayers)))
      && kBufferDepthLS.srv == Some(View(t + 4, FullSRV2D(numKLayers, 1)))
      && kBufferDepthLS.uavs == [View(t + 5, UAV2D(numKLayers, 0))]
    }

    /** What a successful Init leaves is what the passes need. */
    lemma InitDoneIsReady(t: Handle, width: uint32, height: uint32, m: Mesh)
      requires InitDone(t, width, height, m)
      ensures Ready()
      ensures EyePeel() == Peel(t + 7, t + 2, t, m.vertexStride, t + 1, m.numIndices)
      ensures LightPeel() == Peel(t + 10, t + 3, t, m.vertexStride, t + 1, m.numIndices)
      ensures forall target :: CompositeWith(target) == CompositeViews(target, t + 6, t + 9, t + 4)
    {
    }

    /** createVB: records the stride and makes a vertex buffer of stride * numVertices bytes. */
    method CreateVB(numVertices: uint32, stride: uint32) returns (ok: bool)
      modifies this`vertexStride, this`vb, device
      ensures vertexStride == stride && vb != null && fresh(vb)
      ensures Issued(device.accepts, old(device.created),
                     MeshBufferRequests(|old(device.created)|, Mul32(stride, numVertices), VertexBufferFlags),
                     device.created, ok)
      ensures ok ==> vb.buffer == Some(BufferRef(|old(device.created)|,
                                                 RawBufferDesc(Mul32(stride, numVertices), VertexBufferFlags, UsageDefault)))
    {
      vertexStride := stride;
      var b := new RawBuffer(device);
      vb := b;
      ok := b.Create(Mul32(stride, numVertices), VertexBufferFlags, true, 0, UsageDefault);
    }

    /** createIB: records the index count and makes an index buffer of 4 * numIndices bytes. */
    method CreateIB(count: uint32) returns (ok: bool)
      modifies this`numIndices, this`ib, device
      ensures numIndices == count && ib != null && fresh(ib)
      ensures Issued(device.accepts, old(device.created),
                     MeshBufferRequests(|old(device.created)|, Mul32(4, count), IndexBufferFlags),
                     device.created, ok)
      ensures ok ==> ib.buffer == Some(BufferRef(|old(device.created)|,
                                                 RawBufferDesc(Mul32(4, count), IndexBufferFlags, UsageDefault)))
    {
      numIndices := count;
      var b := new RawBuffer(device);
      ib := b;
      ok := b.Create(Mul32(4, count), IndexBufferFlags, true, 0, UsageDefault);
    }

    /** The rest of Init: the constant buffers, then the two k-buffers. */
    method CreateRest(width: uint32, height: uint32) returns (ok: bool)
      modifies this`cbMatrices, this`cbMatricesLS, this`cbPerObject, this`kBufferDepth, this`kBufferDepthLS, device
      ensures Issued(device.accepts, old(device.created),
                     RestRequests(|old(device.created)|, width, height, numKLayers, shadowMapSize), device.created, ok)
      ensures ok ==> ConstantBuffersFrom(|old(device.created)|) && KBuffersFrom(|old(device.created)| + 3, width, height)
    {
      ghost var accepts := device.accepts;
      ghost var c0 := device.created;
      ghost var t := |c0|;
      ghost var eye := KBufferRequests(t + 3, width, height, numKLayers);
      ghost var light := KBufferRequests(t + 6, shadowMapSize, shadowMapSize, numKLayers);
      ok := CreateCBs();
      ghost var c1 := device.created;
      if !ok {
        IssuedStop(accepts, c0, ConstantBufferRequests(), c1, eye + light);
        return;
      }
      IssuedAll(accepts, c0, ConstantBufferRequests(), c1);
      ok := CreateKBuffers(width, height);
      IssuedSeq(accepts, c0, ConstantBufferRequests(), c1, eye + light, device.created, ok);
    }

    /** createCBs: two matrix buffers and the per-object buffer, in this order. */
    method CreateCBs() returns (ok: bool)
      modifies this`cbMatrices, this`cbMatricesLS, this`cbPerObject, device
      ensures Issued(device.accepts, old(device.created), ConstantBufferRequests(), device.created, ok)
      ensures ok ==> ConstantBuffersFrom(|old(device.created)|)
    {
      ghost var accepts := device.accepts;
      ghost var c0 := device.created;
      var matrices := ConstantBufferDesc(CBMatricesSize);
      var perObject := ConstantBufferDesc(CBPerObjectSize);
      var a := [NewBuffer(matrices, None)];
      var b := [NewBuffer(perObject, None)];
      assert ConstantBufferRequests() == a + (a + b);
      var h := device.Create(NewBuffer(matrices, None));
      ghost var c1 := device.created;
      if h.None? {
        IssuedStop(accepts, c0, a, c1, a + b);
        return false;
      }
      cbMatrices := Some(BufferRef(h.value, matrices));
      h := device.Create(NewBuffer(matrices, None));
      ghost var c2 := device.created;
      if h.None? {
        IssuedStop(accepts, c1, a, c2, b);
        IssuedSeq(accepts, c0, a, c1, a + b, c2, false);
        return false;
      }
      cbMatricesLS := Some(BufferRef(h.value, matrices));
      h := device.Create(NewBuffer(perObject, None));
      ok := h.Some?;
      if ok {
        cbPerObject := Some(BufferRef(h.value, perObject));
      }
      IssuedSeq(accepts, c1, a, c2, b, device.created, ok);
      IssuedSeq(accepts, c0, a, c1, a + b, device.created, ok);
    }

    /** The eye k-buffer at the output size, then the light k-buffer at the shadow-map size. */
    method CreateKBuffers(width: uint32, height: uint32) returns (ok: bool)
      modifies this`kBufferDepth, this`kBufferDepthLS, device
      ensures var t := |old(device.created)|;
              Issued(device.accepts, old(device.created),
                     KBufferRequests(t, width, height, numKLayers)
                     + KBufferRequests(t + 3, shadowMapSize, shadowMapSize, numKLayers),
                     device.created, ok)
      ensures ok ==> KBuffersFrom(|old(device.created)|, width, height)
    {
      ghost var accepts := device.accepts;
      ghost var c0 := device.created;
      ghost var t := |c0|;
      ghost var light := KBufferRequests(t + 3, shadowMapSize, shadowMapSize, numKLayers);
      KBufferLayout(t, width, height, numKLayers);
      KBufferLayout(t + 3, shadowMapSize, shadowMapSize, numKLayers);
      var k := new Texture2D(device);
      kBufferDepth := k;
      ok := k.Create(width, height, numKLayers, R32Uint, KBufferFlags, 1, false, KBufferStride, UsageDefault);
      ghost var c1 := device.created;
      if !ok {
        IssuedStop(accepts, c0, KBufferRequests(t, width, height, numKLayers), c1, light);
        return;
      }
      IssuedAll(accepts, c0, KBufferRequests(t, width, height, numKLayers), c1);
      var l := new Texture2D(device);
      kBufferDepthLS := l;
      ok := l.Create(shadowMapSize, shadowMapSize, numKLayers, R32Uint, KBufferFlags, 1, false, KBufferStride,
                     UsageDefault);
      IssuedSeq(accepts, c0, KBufferRequests(t, width, height, numKLayers), c1, light, device.created, ok);
    }

    /**
     * UpdateFrame's uploads: the matrices, the light-space matrices, then the per-object data,
     * each only if its buffer exists.  The bindings do not change.
     */
    method UpdateFrame()
      modifies ctx
      ensures ctx.state == old(ctx.state)
      ensures ctx.log == old(ctx.log) + Uploads([cbMatrices, cbMatricesLS, cbPerObject])
    {
      ghost var log0 := ctx.log;
      if cbMatrices.Some? {
        ctx.UpdateSubresource(cbMatrices.value.handle);
      }
      ghost var log1 := ctx.log;
      if cbMatricesLS.Some? {
        ctx.UpdateSubresource(cbMatricesLS.value.handle);
      }
      ghost var log2 := ctx.log;
      if cbPerObject.Some? {
        ctx.UpdateSubresource(cbPerObject.value.handle);
      }
      UploadsCons(cbMatrices, [cbMatricesLS, cbPerObject]);
      UploadsCons(cbMatricesLS, [cbPerObject]);
      UploadsCons(cbPerObject, []);
    }

    /** depthPeel: peels the mesh from the eye into kBufferDepth. */
    method DepthPeel()
      requires Ready()
      modifies ctx
      ensures ctx.log == old(ctx.log) + PeelCommands(EyePeel(),
                                                     PeelDraw(old(ctx.state), EyePeel(), vertexLayout))
      ensures ctx.state == PeelEnd(old(ctx.state), EyePeel(), vertexLayout)
    {
      ghost var s := ctx.state;
      var rtv, dsv := ctx.state.rtv, ctx.state.dsv;
      var uav := kBufferDepth.GetUAV(0).handle;
      ctx.OMSetUnorderedAccessViewOnly(Some(uav));
      ctx.RSSetState(Some(CullNone));
      ctx.ClearUnorderedAccessViewUint(uav, ClearDepthValues);
      ctx.VSSetConstantBuffer(0, Some(cbMatrices.value.handle));
      ctx.IASetInputLayout(vertexLayout);
      ctx.IASetVertexBuffer(Some(vb.buffer.value.handle), vertexStride, 0);
      ctx.IASetIndexBuffer(Some(ib.buffer.value.handle), R32Uint, 0);
      ctx.IASetPrimitiveTopology(TriangleList);
      ctx.VSSetShader(Some(BasePassVS));
      ctx.PSSetShader(Some(DepthPeelPS));
      assert ctx.state == PeelDraw(s, EyePeel(), vertexLayout);
      ctx.DrawIndexed(numIndices, 0, 0);
      ctx.IASetInputLayout(None);
      ctx.RSSetState(None);
      ctx.OMSetRenderTargets(rtv, dsv);
    }

    /** depthPeelLightSpace: peels the mesh from the light into kBufferDepthLS through the shadow-map viewport. */
    method DepthPeelLightSpace()
      requires Ready()
      modifies ctx
      ensures ctx.log == old(ctx.log) + PeelCommands(LightPeel(),
                                                     LightPeelDraw(old(ctx.state), LightPeel(), vertexLayout,
                                                                   shadowMapSize))
      ensures ctx.state == PeelEnd(old(ctx.state), LightPeel(), vertexLayout)
    {
      ghost var s := ctx.state;
      var rtv, dsv := ctx.state.rtv, ctx.state.dsv;
      var viewportBack := ctx.state.viewport;
      var uav := kBufferDepthLS.GetUAV(0).handle;
      ctx.OMSetUnorderedAccessViewOnly(Some(uav));
      ctx.RSSetViewport(ShadowViewport(shadowMapSize));
      ctx.RSSetState(Some(CullNone));
      ctx.ClearUnorderedAccessViewUint(uav, ClearDepthValues);
      ctx.VSSetConstantBuffer(0, Some(cbMatricesLS.value.handle));
      ctx.IASetInputLayout(vertexLayout);
      ctx.IASetVertexBuffer(Some(vb.buffer.value.handle), vertexStride, 0);
      ctx.IASetIndexBuffer(Some(ib.buffer.value.handle), R32Uint, 0);
      ctx.IASetPrimitiveTopology(TriangleList);
      ctx.VSSetShader(Some(BasePassVS));
      ctx.PSSetShader(Some(DepthPeelPS));
      assert ctx.state == LightPeelDraw(s, LightPeel(), vertexLayout, shadowMapSize);
      ctx.DrawIndexed(numIndices, 0, 0);
      ctx.IASetInputLayout(None);
      ctx.RSSetState(None);
      ctx.RSSetViewport(viewportBack);
      ctx.OMSetRenderTargets(rtv, dsv);
    }

    /**
     * render: composites both k-buffers into the swap chain through `target`, a UAV of a 2D
     * texture described by `output`, with one thread group per 32 x 32 tile.
     */
    method Composite(target: Handle, output: TextureDesc)
      requires Ready() && output.Texture2DDesc?
      modifies ctx
      ensures ctx.log == old(ctx.log) + [DispatchCommand(old(ctx.state), CompositeWith(target), output)]
      ensures ctx.state == CompositeEnd(old(ctx.state), CompositeWith(target))
    {
      ghost var s := ctx.state;
      ghost var c := CompositeWith(target);
      var srvs := [Some(kBufferDepth.srv.value.handle), Some(kBufferDepthLS.srv.value.handle)];
      ctx.CSSetUnorderedAccessView(0, Some(target));
      ctx.CSSetShaderResources(0, srvs);
      ctx.CSSetConstantBuffer(0, Some(cbPerObject.value.handle));
      ctx.CSSetShader(Some(RenderCS));
      assert ctx.state == CompositeDispatch(s, c);
      ctx.Dispatch(ShiftRight(output.width, GroupShift), ShiftRight(output.height, GroupShift), 1);
      ctx.CSSetShaderResources(0, [None, None]);
      ctx.CSSetUnorderedAccessView(0, None);
    }

    /** Render: the light pass, the eye pass, then the composite into `target`. */
    method Render(target: Handle, output: TextureDesc)
      requires Ready() && output.Texture2DDesc?
      modifies ctx
      ensures ctx.log == old(ctx.log) + FrameCommands(old(ctx.state), SceneWith(target), output)
      ensures ctx.state == FrameEnd(old(ctx.state), SceneWith(target))
    {
      DepthPeelLightSpace();
      DepthPeel();
      Composite(target, output);
    }
  }

  /**
   * A renderer whose mesh failed to import: Init returns at once, so UpdateFrame finds none
   * of the constant buffers and neither uploads nor binds anything, and nothing is created.
   */
  method UpdateAfterFailedImport(device: Device, vertexLayout: Option<InputLayout>, numKLayers: uint32,
                                 shadowMapSize: uint32, width: uint32, height: uint32)
    returns (sv: SparseVolume)
    modifies device, device.immediate
    ensures sv.device == device && sv.cbMatrices.None? && sv.cbMatricesLS.None? && sv.cbPerObject.None?
    ensures device.created == old(device.created)
    ensures device.immediate.log == old(device.immediate.log) && device.immediate.state == old(device.immediate.state)
  {
    sv := new SparseVolume(device, vertexLayout, numKLayers, shadowMapSize);
    var ok := sv.Init(width, height, None);
    sv.UpdateFrame();
    NoBuffersNoUploads([sv.cbMatrices, sv.cbMatricesLS, sv.cbPerObject]);
  }
}
