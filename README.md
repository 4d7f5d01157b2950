# SparseVolumeX: resource wrappers and the k-buffer renderer

SparseVolumeX draws a triangle mesh as a participating medium with Direct3D 11. This
project models two parts of it:

- `XSDX/XSDXResource.cpp`, a family of wrappers that create textures and buffers and their views.
- `Content/SparseVolume.cpp`, the renderer that uses those wrappers.

Each frame the renderer works in three passes:

1. It peels the mesh from the light into a light-space k-buffer. A k-buffer is an array
   texture of 32-bit depths, one layer per fragment kept.
2. It peels the mesh from the eye into a second k-buffer.
3. A compute pass composites the two k-buffers into the swap chain.

The device is modelled as follows:

- **Device.** `D3D.Device` keeps an append-only log of the creation requests it accepted.
  The handle of a created object is its position in that log.
- **Refusals.** Whether the driver accepts a request is a parameter of the device, a
  function `accepts` of the request and of everything created before it. A request the
  driver accepted once can therefore be refused later, for instance when memory runs out. A
  refusal stops the operation, as `ThrowIfFailed` does in the source.
- **Issued.** The predicate `D3D.Issued(accepts, before, requests, after, ok)` says that an
  operation sent `requests` in order. It says that after is before plus the accepted
  prefix, and that ok holds iff every request was accepted.
- **Context.** `D3D.Context` is the immediate context. It holds the bound pipeline state,
  the datatype `Bindings`, and an append-only log of the clears, uploads, draws and
  dispatches. Each draw and each dispatch records the bindings it saw.

The wrapper classes are structured as follows:

- **Classes.** Each wrapper is a Dafny `class` whose fields are the source's members:
  `Texture2D`, `RenderTarget`, `DepthStencil`, `Texture3D`, `RawBuffer`, `TypedBuffer`,
  `StructuredBuffer`. The view vectors are `seq<View>` fields that the methods fill in loops.
- **Composition.** Dafny has no class inheritance. `RenderTarget` and `DepthStencil` hold a
  `base: Texture2D`, and `TypedBuffer` and `StructuredBuffer` hold a `base: RawBuffer`.
- **Descriptors.** Module `XSDXViews` gives every descriptor the source builds as a pure
  function of its arguments. It also gives the request sequence each `Create*` issues. The
  methods are proved against those sequences.
- **Renderer.** Module `Content` holds `SparseVolume`. Its passes are proved against pure
  functions of the bindings they start from. Lemmas state what a whole frame does.

Integer widths are modelled where they matter:

- `uint32` products wrap modulo 2^32 (`D3D.Mul32`).
- `uint8` getters truncate.
- Right shifts are floor divisions by powers of two.

## Model

| member | source | states |
|---|---|---|
| D3D.Device.Create | SparseVolumeX/XSDX/XSDXResource.cpp:35 | a creation either appends the request and returns the next handle, or is refused and changes nothing |
| D3D.IssuedMeansAdmitted | SparseVolumeX/XSDX/XSDXResource.cpp:66-74 | a sequence of creations that each abort on refusal leaves exactly the longest accepted prefix in the log, and succeeds iff nothing was refused |
| D3D.AtLeastOne | SparseVolumeX/XSDX/XSDXResource.cpp:119 | max(n, 1) is at least one and at least n, and is n when n is positive |
| D3D.Mul32 | SparseVolumeX/XSDX/XSDXResource.cpp:65 | an unsigned 32-bit product equals the true product when that fits and is congruent to it modulo 2^32 |
| D3D.CpuAccessFor | SparseVolumeX/XSDX/XSDXResource.cpp:61 | CPU write access is granted iff the usage is DYNAMIC, and read access never |
| D3D.ReportedMipLevels | SparseVolumeX/XSDX/XSDXResource.cpp:135-139 | the mip count GetDesc reports is at least one and is the requested count when one was given |
| D3D.FullMipChain | SparseVolumeX/XSDX/XSDXResource.cpp:136 | a full mip chain of an extent n >= 1 has floor(log2 n) + 1 levels: 2^(levels - 1) <= n < 2^levels; so exactly one level iff n <= 1, and never more levels than n |
| D3D.ShiftRightDivides | SparseVolumeX/XSDX/XSDXResource.cpp:489 | x >> k is the floor of x / 2^k: 2^k * (x >> k) <= x < 2^k * ((x >> k) + 1) |
| D3D.ShiftRightIsQuotient | SparseVolumeX/XSDX/XSDXResource.cpp:489 | x >> k equals x / 2^k exactly |
| D3D.Binary32Bits | SparseVolumeX/Content/SparseVolume.cpp:209-210 | the bits of a binary32 value decode back to its sign, biased exponent and fraction |
| D3D.Bind | SparseVolumeX/Content/SparseVolume.cpp:214 | binding a slot sets (or, with null, clears) that slot and leaves every other slot as it was |
| XSDXViews.Texture2DViewDimension | SparseVolumeX/XSDX/XSDXResource.cpp:89-91 | the view of a 2D texture is an array view iff there is more than one slice and multisampled iff there is more than one sample |
| XSDXViews.Texture2DUAVDimension | SparseVolumeX/XSDX/XSDXResource.cpp:123-125 | a 2D UAV is an array view iff there is more than one slice and is never multisampled |
| XSDXViews.Texture2DCreateDesc | SparseVolumeX/XSDX/XSDXResource.cpp:60-61 | the texture has the given format, extent, slices, mips and bind flags, one sample, no misc flags, and CPU write access iff DYNAMIC |
| XSDXViews.Texture2DInit | SparseVolumeX/XSDX/XSDXResource.cpp:63-68 | initial data is passed iff the caller has some, with a row pitch of stride * width (wrapping) and no slice pitch |
| XSDXViews.FullSRV2D | SparseVolumeX/XSDX/XSDXResource.cpp:89-94 | the main SRV sees every mip and every slice, with the dimension the slice and sample counts call for |
| XSDXViews.MipSRV2D | SparseVolumeX/XSDX/XSDXResource.cpp:103-106 | a per-mip SRV sees exactly one mip, `mip` |
| XSDXViews.MipSRVs2D | SparseVolumeX/XSDX/XSDXResource.cpp:96-111 | there are per-mip SRVs only for more than one mip, and then exactly one per mip |
| XSDXViews.UAV2D | SparseVolumeX/XSDX/XSDXResource.cpp:123-125 | a UAV sees one mip and every slice |
| XSDXViews.UAVs2D | SparseVolumeX/XSDX/XSDXResource.cpp:118-129 | there are max(mips, 1) UAVs |
| XSDXViews.SubSRV2D | SparseVolumeX/XSDX/XSDXResource.cpp:143-146 | a sub-SRV sees from its mip to the end of the chain, with the dimension of the texture's own slices and samples |
| XSDXViews.SubSRVs2D | SparseVolumeX/XSDX/XSDXResource.cpp:138-150 | there is one sub-SRV per reported mip after the first |
| XSDXViews.Texture2DSRVRequests | SparseVolumeX/XSDX/XSDXResource.cpp:84-112 | CreateSRV asks for one view plus one per mip when there are several |
| XSDXViews.Texture2DViewCount | SparseVolumeX/XSDX/XSDXResource.cpp:55-75 | Texture2D::Create creates the texture, 1 + (mips if mips > 1) SRVs when SHADER_RESOURCE is bound, max(mips, 1) UAVs when UNORDERED_ACCESS is bound, and nothing else |
| XSDXViews.RenderTargetDesc | SparseVolumeX/XSDX/XSDXResource.cpp:301-303 | a render target is always bindable as render target and shader resource, as UAV iff asked, has DEFAULT usage and no CPU access, and generates mips iff mips != 1 |
| XSDXViews.SliceRTV | SparseVolumeX/XSDX/XSDXResource.cpp:201-204 | the RTV at (slice, mip) sees exactly that slice and that mip |
| XSDXViews.SliceRTVs | SparseVolumeX/XSDX/XSDXResource.cpp:196-208 | each slice has max(mips, 1) RTVs |
| XSDXViews.ArrayRTV | SparseVolumeX/XSDX/XSDXResource.cpp:231-234 | an array RTV sees one mip of every slice |
| XSDXViews.ArrayRTVs | SparseVolumeX/XSDX/XSDXResource.cpp:224-238 | the array row has max(mips, 1) RTVs |
| XSDXViews.RTVGridRequests | SparseVolumeX/XSDX/XSDXResource.cpp:193-209 | the RTV loops of RenderTarget::Create ask for slices * max(mips, 1) views |
| XSDXViews.DepthStencilFormats | SparseVolumeX/XSDX/XSDXResource.cpp:336-349 | D24S8 maps to R24G8 typeless storage read as R24 UNORM, D16 to R16 typeless read as R16 UNORM, and every other format to R32 typeless read as R32 FLOAT |
| XSDXViews.DepthStencilDesc | SparseVolumeX/XSDX/XSDXResource.cpp:353-355 | the depth texture is stored typeless, is always bindable as depth-stencil, and is bindable as shader resource iff asked; it keeps the caller's extent, slice count, mip count and sample count, with DEFAULT usage, no CPU access and no misc flags |
| XSDXViews.DepthSRV | SparseVolumeX/XSDX/XSDXResource.cpp:365-367 | the depth SRV reads the texture in the readable format of the table |
| XSDXViews.ReadOnlyFlags | SparseVolumeX/XSDX/XSDXResource.cpp:389-391 | the read-only DSV always makes depth read-only, and stencil iff the format is D24S8 |
| XSDXViews.MipDSV | SparseVolumeX/XSDX/XSDXResource.cpp:380-382 | a DSV is in the depth format itself and sees the one mip `mip` |
| XSDXViews.MipDSVs | SparseVolumeX/XSDX/XSDXResource.cpp:373-377 | there is one DSV per mip |
| XSDXViews.DSVViewsAt | SparseVolumeX/XSDX/XSDXResource.cpp:373-397 | for mip m the kept DSV is the DSV of mip m, one log entry per mip or two with an SRV; with an SRV the read-only DSV follows it and differs only in its flags, and without one it is the DSV itself |
| XSDXViews.Texture3DCreateDesc | SparseVolumeX/XSDX/XSDXResource.cpp:445-446 | the volume has the given format, extent, mips, bind flags and usage, no misc flags, and CPU write access iff DYNAMIC |
| XSDXViews.Texture3DInit | SparseVolumeX/XSDX/XSDXResource.cpp:448-454 | initial data is passed iff the caller has some, with row pitch stride * width and slice pitch stride * width * height (wrapping) |
| XSDXViews.FullSRV3D | SparseVolumeX/XSDX/XSDXResource.cpp:461 | the main volume SRV sees every mip |
| XSDXViews.MipSRV3D | SparseVolumeX/XSDX/XSDXResource.cpp:473 | a per-mip volume SRV sees exactly one mip |
| XSDXViews.MipSRVs3D | SparseVolumeX/XSDX/XSDXResource.cpp:466-478 | there are per-mip SRVs only for more than one mip, and then one per mip |
| XSDXViews.UAV3D | SparseVolumeX/XSDX/XSDXResource.cpp:489-490 | the UAV of mip m sees depth slices 0 .. (depth >> m) - 1 of that mip |
| XSDXViews.UAVs3D | SparseVolumeX/XSDX/XSDXResource.cpp:484-495 | there are max(mips, 1) volume UAVs |
| XSDXViews.SubSRV3D | SparseVolumeX/XSDX/XSDXResource.cpp:509 | a volume sub-SRV sees from its mip to the end of the chain |
| XSDXViews.SubSRVs3D | SparseVolumeX/XSDX/XSDXResource.cpp:504-513 | there is one volume sub-SRV per reported mip after the first |
| XSDXViews.Texture3DSRVRequests | SparseVolumeX/XSDX/XSDXResource.cpp:458-479 | the volume's SRVs are one full view plus one per mip when there are several |
| XSDXViews.ReadBackDesc | SparseVolumeX/XSDX/XSDXResource.cpp:28-33 | the read-back copy keeps the source's size and stride, is STAGING with CPU read access, and is bound nowhere with no misc flags |
| XSDXViews.RawBufferDesc | SparseVolumeX/XSDX/XSDXResource.cpp:558-561 | a raw buffer has the given size, bind flags and usage, CPU write iff DYNAMIC, and allows raw views iff it is bound as shader resource or unordered access |
| XSDXViews.RawSRV | SparseVolumeX/XSDX/XSDXResource.cpp:593-594 | the raw SRV is a raw R32 typeless view over byteWidth / 4 elements, rounding down |
| XSDXViews.RawUAV | SparseVolumeX/XSDX/XSDXResource.cpp:579-580 | the raw UAV is an R32 typeless view over byteWidth / 4 elements with the caller's UAV flags |
| XSDXViews.TypedBufferDesc | SparseVolumeX/XSDX/XSDXResource.cpp:628-629 | a typed buffer holds numElements * stride bytes (wrapping), with no misc flags |
| XSDXViews.TypedSRV | SparseVolumeX/XSDX/XSDXResource.cpp:661 | the typed SRV sees numElements elements of the given format |
| XSDXViews.TypedUAV | SparseVolumeX/XSDX/XSDXResource.cpp:647-648 | the typed UAV sees numElements elements of the given format with the caller's flags |
| XSDXViews.StructuredBufferDesc | SparseVolumeX/XSDX/XSDXResource.cpp:685-687 | a structured buffer holds numElements * stride bytes, is flagged STRUCTURED and records its stride |
| XSDXViews.StructuredSRV | SparseVolumeX/XSDX/XSDXResource.cpp:719 | the structured SRV sees numElements elements, format unknown |
| XSDXViews.StructuredUAV | SparseVolumeX/XSDX/XSDXResource.cpp:705-706 | the structured UAV sees numElements elements, format unknown, with the caller's flags |
| XSDXViews.BufferInit | SparseVolumeX/XSDX/XSDXResource.cpp:563-568 | initial data is passed iff the caller has some |
| XSDXViews.BufferRequests | SparseVolumeX/XSDX/XSDXResource.cpp:563-584 | a buffer's Create asks for the buffer, then its SRV if wanted, then its UAV if wanted, and nothing else |
| XSDX.CreateReadBuffer | SparseVolumeX/XSDX/XSDXResource.cpp:26-36 | one request, for the read-back copy of the source buffer, whose handle is returned on success |
| XSDX.CreateViewPairs | SparseVolumeX/XSDX/XSDXResource.cpp:377-397 | the paired DSV loop issues each view and, when paired, its twin, and keeps the n first and the n second views |
| XSDX.Texture2D.Create | SparseVolumeX/XSDX/XSDXResource.cpp:55-75 | it issues the texture, its SRVs when SHADER_RESOURCE is bound and its UAVs when UNORDERED_ACCESS is bound; on success each view list holds exactly the views of its kind that were created, numbered in order, and lists of an unbound kind are untouched |
| XSDX.Texture2D.CreateSRV | SparseVolumeX/XSDX/XSDXResource.cpp:84-112 | it issues the full SRV and then the per-mip SRVs, and keeps them in order |
| XSDX.Texture2D.CreateUAV | SparseVolumeX/XSDX/XSDXResource.cpp:114-130 | it issues one UAV per mip, at least one, and keeps them in order |
| XSDX.Texture2D.CreateSubSRVs | SparseVolumeX/XSDX/XSDXResource.cpp:132-151 | it issues one sub-SRV per reported mip after the first, and sub-SRV j starts at mip j + 1 |
| XSDX.Texture2D.GetSubSRV | SparseVolumeX/XSDX/XSDXResource.cpp:168-171 | index 0 is the main SRV, and index i > 0 is a sub-SRV that, once built, starts at mip i and runs to the end of the chain |
| XSDX.Texture2D.GetUAV | SparseVolumeX/XSDX/XSDXResource.cpp:158-161 | returns one of the texture's UAVs |
| XSDX.Texture2D.GetSRVLevel | SparseVolumeX/XSDX/XSDXResource.cpp:163-166 | returns one of the texture's per-mip SRVs |
| XSDX.RenderTarget.CreateResource | SparseVolumeX/XSDX/XSDXResource.cpp:297-313 | it issues the render-target texture, its full SRV and, when asked, its UAVs; on success it keeps the texture with its descriptor, the SRV right after it and the UAVs after that, and leaves the per-mip and sub-SRV lists as they were |
| XSDX.RenderTarget.Create | SparseVolumeX/XSDX/XSDXResource.cpp:187-210 | after the texture and its views, it issues the RTV grid slice by slice and mip by mip; on success the texture part is as CreateResource leaves it, and row s, column m is the RTV of slice s at mip m, for any number of slices |
| XSDX.RenderTarget.CreateGrid | SparseVolumeX/XSDX/XSDXResource.cpp:193-209 | the nested loops leave arraySize rows of max(mips, 1) RTVs, cell (s, m) seeing slice s at mip m; the slice counter is as wide as arraySize |
| XSDX.RenderTarget.CreateArray | SparseVolumeX/XSDX/XSDXResource.cpp:218-239 | on success the texture part is as CreateResource leaves it, and it keeps a single row of max(mips, 1) RTVs, each over one mip of every slice, numbered after the texture's own views |
| XSDX.NextSlice8 | SparseVolumeX/XSDX/XSDXResource.cpp:194 | the 8-bit slice counter's ++ adds one below 255 and wraps 255 to 0 |
| XSDX.SliceLoopAsWrittenNeverExits | SparseVolumeX/XSDX/XSDXResource.cpp:194 | with 256 slices or more, the 8-bit counter is below arraySize at every value, before and after ++, so the loop guard never fails |
| XSDX.RenderTarget.Populate | SparseVolumeX/XSDX/XSDXResource.cpp:241-278 | it clears the chosen RTV and draws a screen triangle into it with the source SRV bound; afterwards the caller's targets and viewport are back, and the SRV slot and shaders are unbound |
| XSDX.RenderTarget.GetRTV | SparseVolumeX/XSDX/XSDXResource.cpp:280-285 | returns an RTV of the requested slice |
| XSDX.RenderTarget.GetArraySize | SparseVolumeX/XSDX/XSDXResource.cpp:287-290 | the number of rows, exact while it fits in 8 bits |
| XSDX.RenderTarget.GetNumMips | SparseVolumeX/XSDX/XSDXResource.cpp:292-295 | the number of RTVs in a row, exact while it fits in 8 bits |
| XSDX.RenderTargetGrid | SparseVolumeX/XSDX/XSDXResource.cpp:187-210 | after Create with at most 255 slices (the getters answer in 8 bits), the getters report arraySize slices of max(mips, 1) mips, and GetRTV(s, m) sees exactly slice s at mip m |
| XSDX.DepthStencil.Create | SparseVolumeX/XSDX/XSDXResource.cpp:330-398 | it issues the typeless texture, the SRV if SHADER_RESOURCE is asked for, then each mip's DSV followed, with an SRV, by its read-only DSV; it keeps max(mips, 1) of each, and the read-only DSVs are the DSVs themselves without an SRV |
| XSDX.DepthStencil.CreateTexture | SparseVolumeX/XSDX/XSDXResource.cpp:353-371 | the first half of Create: it issues the texture and then, when an SRV is asked for, the SRV right after it; a refusal aborts, and on success the texture and SRV handles are the next log positions |
| XSDX.DepthStencil.GetDSV | SparseVolumeX/XSDX/XSDXResource.cpp:406-410 | returns one of the DSVs |
| XSDX.DepthStencil.GetDSVRO | SparseVolumeX/XSDX/XSDXResource.cpp:412-416 | returns one of the read-only DSVs |
| XSDX.DepthStencil.GetNumMips | SparseVolumeX/XSDX/XSDXResource.cpp:418-421 | the number of DSVs, exact while it fits in 8 bits |
| XSDX.Texture3D.Create | SparseVolumeX/XSDX/XSDXResource.cpp:440-496 | it issues the volume, its SRVs when SHADER_RESOURCE is bound and its UAVs when UNORDERED_ACCESS is bound; on success the lists hold exactly those views in order, and UAV m sees depth >> m slices |
| XSDX.Texture3D.CreateSubSRVs | SparseVolumeX/XSDX/XSDXResource.cpp:498-514 | it issues one sub-SRV per reported mip after the first, and sub-SRV j starts at mip j + 1 |
| XSDX.Texture3D.GetSubSRV | SparseVolumeX/XSDX/XSDXResource.cpp:531-534 | index 0 is the main SRV, and index i > 0 is a sub-SRV that, once built, starts at mip i |
| XSDX.Texture3D.GetUAV | SparseVolumeX/XSDX/XSDXResource.cpp:521-524 | returns one of the volume's UAVs |
| XSDX.Texture3D.GetSRVLevel | SparseVolumeX/XSDX/XSDXResource.cpp:526-529 | returns one of the volume's per-mip SRVs |
| XSDX.RawBuffer.Create | SparseVolumeX/XSDX/XSDXResource.cpp:551-585 | it issues the buffer, then the raw SRV if SHADER_RESOURCE is bound, then the raw UAV if UNORDERED_ACCESS is bound, and keeps what it created |
| XSDX.RawBuffer.CreateSRV | SparseVolumeX/XSDX/XSDXResource.cpp:587-598 | it issues the raw SRV over byteWidth / 4 elements and keeps it |
| XSDX.TypedBuffer.Create | SparseVolumeX/XSDX/XSDXResource.cpp:623-653 | as RawBuffer.Create, with the typed descriptor and typed views |
| XSDX.TypedBuffer.CreateSRV | SparseVolumeX/XSDX/XSDXResource.cpp:655-665 | it issues the typed SRV and keeps it |
| XSDX.StructuredBuffer.Create | SparseVolumeX/XSDX/XSDXResource.cpp:680-711 | as RawBuffer.Create, with the structured descriptor and structured views |
| XSDX.StructuredBuffer.CreateSRV | SparseVolumeX/XSDX/XSDXResource.cpp:713-723 | it issues the structured SRV and keeps it |
| Content.ClearDepthIsOne | SparseVolumeX/Content/SparseVolume.cpp:209-211 | the k-buffer clear value is the binary32 encoding of 1.0 in the first component and zero in the others |
| Content.MeshBufferIsOneRequest | SparseVolumeX/Content/SparseVolume.cpp:170-182 | the vertex and index buffers are one request each, with the mesh data, no view and no raw-view flag |
| Content.ConstantBufferDesc | SparseVolumeX/Content/SparseVolume.cpp:186 | a constant buffer has the given size, DEFAULT usage, no CPU access and no flags |
| Content.KBufferDesc | SparseVolumeX/Content/SparseVolume.cpp:51-55 | a k-buffer is a width x height array of 32-bit unsigned layers with one mip, bindable as shader resource and unordered access |
| Content.KBufferLayout | SparseVolumeX/Content/SparseVolume.cpp:51-55 | each k-buffer takes three objects: the texture, one SRV over all of it, and the UAV of its single mip |
| Content.InitLayout | SparseVolumeX/Content/SparseVolume.cpp:42-55 | after a successful import Init creates eleven objects: vertex buffer, index buffer, three constant buffers, then each k-buffer's texture, SRV and UAV |
| Content.ShadowViewport | SparseVolumeX/Content/SparseVolume.cpp:252 | the light-space viewport is the square of the shadow-map size at the origin with depths 0 to 1 |
| Content.PeelDraw | SparseVolumeX/Content/SparseVolume.cpp:203-224 | the peeling draw sees no RTV or DSV, the k-buffer's UAV, no culling, the matrices in VS slot 0 (every other slot keeps its buffer), the mesh with 32-bit indices as a triangle list, and the base-pass and peeling shaders; the viewport and all compute state are untouched |
| Content.LightPeelDraw | SparseVolumeX/Content/SparseVolume.cpp:248-272 | the light-space draw is the eye draw except that the viewport is the shadow-map square |
| Content.PeelEnd | SparseVolumeX/Content/SparseVolume.cpp:228-231 | after peeling, the caller's RTV, DSV and viewport are back, the input layout and rasterizer state are unbound, and compute state is untouched |
| Content.BindRangeTwo | SparseVolumeX/Content/SparseVolume.cpp:297 | binding two SRVs from slot s binds slot s, then slot s + 1 |
| Content.CompositeDispatch | SparseVolumeX/Content/SparseVolume.cpp:296-301 | the dispatch sees the output UAV in CS slot 0, the eye and light k-buffer SRVs in slots 0 and 1, the per-object data in CB slot 0 and CS_RENDER; graphics targets and viewport are untouched |
| Content.CompositeEnd | SparseVolumeX/Content/SparseVolume.cpp:305-307 | afterwards CS SRV slots 0 and 1 and UAV slot 0 are unbound, higher SRV slots keep their views, and the rest is as during the dispatch |
| Content.DispatchCoversOutput | SparseVolumeX/Content/SparseVolume.cpp:302 | the Width >> 5 by Height >> 5 groups cover the largest multiple of 32 that fits each extent, leaving at most 31 pixels per extent |
| Content.FrameShape | SparseVolumeX/Content/SparseVolume.cpp:103-109 | a frame is five commands: the light peel, then the eye peel, each drawn right after the clear of its own k-buffer; the eye draw sees the caller's viewport; the dispatch sees both k-buffers and the caller's targets; the frame ends with the caller's targets and viewport and the composite's views unbound |
| Content.Uploads | SparseVolumeX/Content/SparseVolume.cpp:73-100 | UpdateFrame uploads at most once per constant buffer, and only uploads |
| Content.UploadsExactly | SparseVolumeX/Content/SparseVolume.cpp:73-100 | UpdateFrame uploads exactly the constant buffers that exist, in order |
| Content.NoBuffersNoUploads | SparseVolumeX/Content/SparseVolume.cpp:73-100 | with no constant buffer at all, UpdateFrame uploads nothing |
| Content.UpdateAfterFailedImport | SparseVolumeX/Content/SparseVolume.cpp:20-28 | a renderer constructed, given a failed import in Init (lines 34-40), then UpdateFrame (lines 73, 83, 100), creates nothing, uploads nothing and binds nothing |
| Content.Present | SparseVolumeX/Content/SparseVolume.cpp:73-100 | the buffers that exist: none more than there are, only ones that exist, all when all exist, none when none do |
| Content.SparseVolume.Init | SparseVolumeX/Content/SparseVolume.cpp:34-56 | it records the output size; a failed import returns with nothing created, and the buffers, k-buffers, vertex stride, index count and bounding sphere unchanged; otherwise it issues the eleven requests of InitLayout and, on success, keeps every object at the handle the passes use |
| Content.SparseVolume.InitDoneIsReady | SparseVolumeX/Content/SparseVolume.cpp:42-55 | after a successful Init the passes bind the eye k-buffer's UAV with the matrices, the light k-buffer's UAV with the light-space matrices, and both SRVs with the per-object data, at the handles Init created |
| Content.SparseVolume.CreateVB | SparseVolumeX/Content/SparseVolume.cpp:170-175 | it records the stride and creates the vertex buffer of stride * count bytes (wrapping) with the mesh data |
| Content.SparseVolume.CreateIB | SparseVolumeX/Content/SparseVolume.cpp:177-182 | it records the index count and creates the index buffer of 4 * count bytes with the mesh data |
| Content.SparseVolume.CreateCBs | SparseVolumeX/Content/SparseVolume.cpp:184-192 | it creates the matrices, light-space matrices and per-object constant buffers, in order, aborting on the first refusal |
| Content.SparseVolume.CreateKBuffers | SparseVolumeX/Content/SparseVolume.cpp:51-55 | it creates the eye k-buffer at the output size and the light k-buffer at the shadow-map size, both with the configured layer count |
| Content.SparseVolume.UpdateFrame | SparseVolumeX/Content/SparseVolume.cpp:58-101 | it binds nothing and uploads once to each constant buffer that exists, skipping missing ones |
| Content.SparseVolume.DepthPeel | SparseVolumeX/Content/SparseVolume.cpp:194-232 | it clears the eye k-buffer to 1.0, then draws the mesh with the PeelDraw bindings, and ends in the PeelEnd state |
| Content.SparseVolume.DepthPeelLightSpace | SparseVolumeX/Content/SparseVolume.cpp:234-281 | it clears the light k-buffer to 1.0, then draws the mesh in the shadow-map viewport, and ends in the PeelEnd state with the caller's viewport back |
| Content.SparseVolume.Composite | SparseVolumeX/Content/SparseVolume.cpp:283-308 | for an output that is a 2D texture, as the cast at line 288 demands, it dispatches Width >> 5 by Height >> 5 groups with the CompositeDispatch bindings, and ends in the CompositeEnd state |
| Content.SparseVolume.Render | SparseVolumeX/Content/SparseVolume.cpp:103-109 | it logs exactly the light pass, the eye pass and the composite, in that order (FrameCommands, whose shape FrameShape states), and ends in FrameEnd |

## Left out

- **I/O and resources.** The modelled effect of a creation is its request. A thrown exception ends the operation, leaving the objects created before it in the log. Pixel contents, shader code and the bytes of uploads are left out. So are DirectXMath and the matrices UpdateFrame computes: the model records which buffers are uploaded, not what is in them.
- **D3D11 defaults.** The rules that resolve `(UINT)-1` and `DXGI_FORMAT_UNKNOWN` in view descriptors are not modelled. A descriptor records the arguments the source passes, with `Remaining` for -1.
- **Mip counts.** `D3D.ReportedMipLevels`: the mip count a driver reports for a texture created with 0 mips is taken to be a full chain of its largest extent.
- **XSDXResource.h.** This header is not part of this model. Its default arguments are taken as:
  - SHADER_RESOURCE | UNORDERED_ACCESS bind flags;
  - one mip;
  - no initial data;
  - element stride 4;
  - DEFAULT usage;
  - no UAV flags;
  - one mip for the SRV that RenderTarget's texture creates;
  - index 0 for `GetUAV()` called without an argument, as the peeling passes call it (SparseVolume.cpp:204, 211, 249, 259).
- **SharedConst.h.** This header is not part of this model. `NUM_K_LAYERS` and `SHADOW_MAP_SIZE` are constructor parameters of `SparseVolume`.
- **ObjLoader.** ObjLoader is not part of this model. Its import is a parameter of `Init`: `None` for a failed import, or the mesh's counts, stride, centre and radius. The vertex and index data pointers are taken to be non-null.
- **`CD3D11_VIEWPORT(texture, rtv)`.** The viewport this constructor derives, used by RenderTarget::Populate, is a parameter of the device (`viewportOf`).
- **Render's output size.** `SparseVolume::render` reads the output size via `GetResource`/`GetDesc`. The model takes that descriptor as a parameter of `Composite` and `Render`.
- **The vertex layout.** `CreateVertexLayout` and `GetVertexLayout` are left out, and so is the static layout they manage. The layout is a constructor parameter of `SparseVolume`.
- **RenderTest.** `RenderTest` is a debugging draw that is not part of the frame.
- **Plain getters.** `GetTexture`, `GetBuffer`, `GetUAV` of RawBuffer and `Resource::GetSRV` only return a field. The model reads those fields directly.
- **Overloads.** The overloads without an array size (XSDXResource.cpp:77-82, 212-216, 400-404) forward with an array size of 1. They are not separate members.
- **Viewport conversions.** The float conversions of the viewport are left out: `Init` stores the output size as reals.
- XSDX.RenderTarget.Create: models the corrected slice loop with a counter as wide as arraySize (see Findings). The source's 8-bit counter never exits with 256 slices or more.
- D3D.ShiftRight: a shift by 32 or more, undefined in C++, yields 0 here. Texture3D's UAV loop reaches it only with more than 32 mips, more than D3D11 allows.
- **Output-merger UAVs.** `OMSetRenderTargetsAndUnorderedAccessViews` is modelled as unbinding the RTV and DSV and binding UAV slot 0. The peeling passes restore the targets with `OMSetRenderTargets`, which the model takes to leave the UAV binding in place. The initial UAV counter is not recorded.
- Content.SparseVolume.DepthPeelLightSpace and XSDX.RenderTarget.Populate: exactly one viewport is assumed bound on entry. The source passes the count that `RSGetViewports` reads back to `RSSetViewports`, for both the override and the restore. With no viewport bound that count is 0, and the source binds neither the light-space (or render-target) viewport nor the restore, which the model does not capture.
- Content.SparseVolume.DepthPeel, DepthPeelLightSpace, Composite and Render: each requires a successful `Init`. The source dereferences the wrappers unconditionally, so before `Init` it would crash, and that crash is not modelled.
- XSDX.Texture2D.GetUAV, GetSRVLevel, GetSubSRV, the Texture3D getters, XSDX.RenderTarget.GetRTV, XSDX.DepthStencil.GetDSV and GetDSVRO: each requires an index in range. The source indexes a vector. Only GetRTV, GetDSV and GetDSVRO check the index, and only by assert.

## Findings

| source | as written | input that shows it | evidently intended | confidence | as-written member | corrected member |
|---|---|---|---|---|---|---|
| SparseVolumeX/XSDX/XSDXResource.cpp:194 | the slice loop of `RenderTarget::Create` counts with an 8-bit `i` against the 32-bit `uArraySize` | `uArraySize = 256`, which D3D11 allows for texture arrays (up to 2048): `i` goes 0 .. 255, wraps to 0 and never reaches 256, so the loop never ends | a counter as wide as `uArraySize`, giving one row of RTVs per slice | not executed; high | XSDX.SliceLoopAsWrittenNeverExits | XSDX.RenderTarget.CreateGrid |
