/**
 * The descriptors the XSDX resource wrappers hand to the device, as pure functions
 * of their arguments, and the requests each `Create*` method issues in order.
 * The classes in module XSDX fill their view lists in loops with a running mip
 * counter; their contracts tie those lists to the functions here.
 */
module XSDXViews {
  import opened D3D

  // ---------------------------------------------------------------------------
  // View dimensions
  // ---------------------------------------------------------------------------

  /** The dimension of a 2D texture's SRV, RTV or DSV: array iff more than one slice, MS iff more than one sample. */
  function Texture2DViewDimension(arraySize: uint32, samples: uint32): (d: ViewDimension)
    ensures d.IsArray() <==> arraySize > 1
    ensures d.IsMultisampled() <==> samples > 1
    ensures d != BufferDim && d != BufferExDim && d != Tex3D
  {
    if arraySize > 1 then (if samples > 1 then Tex2DMSArray else Tex2DArray)
    else (if samples > 1 then Tex2DMS else Tex2D)
  }

  /** The dimension of a 2D texture's UAV, which is never multisampled. */
  function Texture2DUAVDimension(arraySize: uint32): (d: ViewDimension)
    ensures d.IsArray() <==> arraySize > 1
    ensures !d.IsMultisampled()
    ensures d == Tex2D || d == Tex2DArray
  {
    if arraySize > 1 then Tex2DArray else Tex2D
  }

  /** A full chain of n one-level views, the k-th built by f(k), created on resource t in order. */
  function ViewRequests(t: Handle, ds: seq<ViewDesc>): (rs: seq<Request>)
    ensures |rs| == |ds|
  {
    seq(|ds|, k requires 0 <= k < |ds| => NewView(t, ds[k]))
  }

  /** The views the device hands back for `ds` when it numbers them from `base`. */
  function Numbered(base: Handle, ds: seq<ViewDesc>): (vs: seq<View>)
    ensures |vs| == |ds|
  {
    seq(|ds|, k requires 0 <= k < |ds| => View(base + k, ds[k]))
  }

  lemma NumberedSnoc(base: Handle, ds: seq<ViewDesc>, d: ViewDesc)
    ensures Numbered(base, ds + [d]) == Numbered(base, ds) + [View(base + |ds|, d)]
  {
  }

  /** One step of a paired loop: the view d, then (when paired) its twin r. */
  function PairStep(t: Handle, d: ViewDesc, r: ViewDesc, paired: bool): (rs: seq<Request>)
    ensures |rs| == if paired then 2 else 1
  {
    [NewView(t, d)] + (if paired then [NewView(t, r)] else [])
  }

  /** The requests of n steps of a paired loop over ds and their twins ros. */
  function PairRequests(t: Handle, ds: seq<ViewDesc>, ros: seq<ViewDesc>, paired: bool, n: nat): (rs: seq<Request>)
    requires n <= |ds| && n <= |ros|
    ensures |rs| == if paired then 2 * n else n
  {
    if n == 0 then [] else PairRequests(t, ds, ros, paired, n - 1) + PairStep(t, ds[n - 1], ros[n - 1], paired)
  }

  lemma {:induction false} PairRequestsPrefix(t: Handle, ds: seq<ViewDesc>, ros: seq<ViewDesc>, paired: bool, i: nat, n: nat)
    requires i <= n <= |ds| && n <= |ros|
    ensures var p := PairRequests(t, ds, ros, paired, i);
            |p| <= |PairRequests(t, ds, ros, paired, n)| && p == PairRequests(t, ds, ros, paired, n)[..|p|]
  {
    if i < n {
      PairRequestsPrefix(t, ds, ros, paired, i, n - 1);
    }
  }

  /** Where step k of a paired loop starts in the log, when step 0 starts at `first`. */
  function PairStart(first: Handle, paired: bool, k: nat): Handle {
    first + (if paired then 2 * k else k)
  }

  /** The view kept from step k: the first of the pair, or (second) its twin, which is the first when unpaired. */
  function PairView(first: Handle, d: ViewDesc, r: ViewDesc, paired: bool, second: bool, k: nat): View {
    if paired && second then View(PairStart(first, paired, k) + 1, r) else View(PairStart(first, paired, k), d)
  }

  function PairViews(first: Handle, ds: seq<ViewDesc>, ros: seq<ViewDesc>, paired: bool, second: bool, n: nat): (vs: seq<View>)
    requires n <= |ds| && n <= |ros|
    ensures |vs| == n
  {
    if n == 0 then [] else PairViews(first, ds, ros, paired, second, n - 1) + [PairView(first, ds[n - 1], ros[n - 1], paired, second, n - 1)]
  }

  lemma {:induction false} PairViewsAt(first: Handle, ds: seq<ViewDesc>, ros: seq<ViewDesc>, paired: bool, second: bool,
                                       n: nat, k: nat)
    requires k < n <= |ds| && n <= |ros|
    ensures PairViews(first, ds, ros, paired, second, n)[k] == PairView(first, ds[k], ros[k], paired, second, k)
  {
    if k < n - 1 {
      PairViewsAt(first, ds, ros, paired, second, n - 1, k);
    }
  }

  // ---------------------------------------------------------------------------
  // Texture2D (XSDXResource.cpp:55-171)
  // ---------------------------------------------------------------------------

  function Texture2DCreateDesc(width: uint32, height: uint32, arraySize: uint32, format: Format,
                               bindFlags: bv8, mips: uint8, usage: Usage): (t: TextureDesc)
    ensures t.Texture2DDesc? && t.format == format && t.width == width && t.height == height
    ensures t.arraySize == arraySize && t.mipLevels == mips && t.bindFlags == bindFlags as bv32
    ensures t.usage == usage && (Has(t.cpuAccess, CpuAccessWrite) <==> usage == UsageDynamic)
    ensures t.sampleCount == 1 && t.miscFlags == 0
  {
    Texture2DDesc(format, width, height, arraySize, mips, bindFlags as bv32, usage,
                  CpuAccessFor(usage), 1, 0, 0)
  }

  /** The initial-data pitches of a 2D texture: rows of stride * width bytes, no slice pitch. */
  function Texture2DInit(hasInitialData: bool, width: uint32, stride: uint8): (init: Option<InitData>)
    ensures init.Some? <==> hasInitialData
    ensures hasInitialData ==> init.value == InitData(Mul32(stride, width), 0)
  {
    if hasInitialData then Some(InitData(Mul32(stride, width), 0)) else None
  }

  /** The SRV over every mip and slice of a 2D texture. */
  function FullSRV2D(arraySize: uint32, samples: uint32): (d: ViewDesc)
    ensures d.kind == ShaderResourceView && d.dim == Texture2DViewDimension(arraySize, samples)
    ensures d.firstMip == 0 && d.mipCount == Remaining && d.firstSlice == 0 && d.sliceCount == Remaining
  {
    ViewDesc(ShaderResourceView, Texture2DViewDimension(arraySize, samples), Unknown,
             0, Remaining, 0, Remaining, 0, 0)
  }

  /** The SRV over the single mip `mip` of a 2D texture. */
  function MipSRV2D(arraySize: uint32, samples: uint32, mip: uint32): (d: ViewDesc)
    ensures d.kind == ShaderResourceView && d.dim == Texture2DViewDimension(arraySize, samples)
    ensures d.firstMip == mip && d.mipCount == 1
  {
    ViewDesc(ShaderResourceView, Texture2DViewDimension(arraySize, samples), Unknown,
             mip, 1, 0, Remaining, 0, 0)
  }

  /** The per-mip SRVs: none for one level or fewer, otherwise one per level. */
  function MipSRVs2D(arraySize: uint32, samples: uint32, mips: uint8): (ds: seq<ViewDesc>)
    ensures |ds| == if mips > 1 then mips else 0
  {
    if mips > 1 then seq(mips, k requires 0 <= k < mips => MipSRV2D(arraySize, samples, k)) else []
  }

  /** The UAV over mip `mip` of a 2D texture, all slices. */
  function UAV2D(arraySize: uint32, mip: uint32): (d: ViewDesc)
    ensures d.kind == UnorderedAccessView && d.dim == Texture2DUAVDimension(arraySize)
    ensures d.firstMip == mip && d.mipCount == 1 && d.firstSlice == 0 && d.sliceCount == Remaining
  {
    ViewDesc(UnorderedAccessView, Texture2DUAVDimension(arraySize), Unknown, mip, 1, 0, Remaining, 0, 0)
  }

  /** One UAV per mip, and one even when zero mips were asked for. */
  function UAVs2D(arraySize: uint32, mips: uint8): (ds: seq<ViewDesc>)
    ensures |ds| == AtLeastOne(mips)
  {
    var n := AtLeastOne(mips);
    seq(n, k requires 0 <= k < n => UAV2D(arraySize, k))
  }

  /** The SRV of a 2D texture from mip `mip` to the end of the chain. */
  function SubSRV2D(t: TextureDesc, mip: uint32): (d: ViewDesc)
    requires t.Texture2DDesc?
    ensures d.kind == ShaderResourceView && d.dim == Texture2DViewDimension(t.arraySize, t.sampleCount)
    ensures d.firstMip == mip && d.mipCount == Remaining
  {
    ViewDesc(ShaderResourceView, Texture2DViewDimension(t.arraySize, t.sampleCount), Unknown,
             mip, Remaining, 0, Remaining, 0, 0)
  }

  /** One sub-SRV per mip after the first: the j-th starts at mip j + 1. */
  function SubSRVs2D(t: TextureDesc): (ds: seq<ViewDesc>)
    requires t.Texture2DDesc?
    ensures |ds| == ReportedMipLevels(t) - 1
  {
    var n := ReportedMipLevels(t) - 1;
    seq(n, j requires 0 <= j < n => SubSRV2D(t, j + 1))
  }

  /** CreateSRV: the full SRV, then the per-mip SRVs. */
  function Texture2DSRVRequests(t: Handle, arraySize: uint32, samples: uint32, mips: uint8): (rs: seq<Request>)
    ensures |rs| == 1 + (if mips > 1 then mips else 0)
  {
    [NewView(t, FullSRV2D(arraySize, samples))] + ViewRequests(t, MipSRVs2D(arraySize, samples, mips))
  }

  /** The views Texture2D::Create asks for once the texture exists: SRVs if wanted, then UAVs if wanted. */
  function BoundViewRequests(t: Handle, arraySize: uint32, mips: uint8, wantSRV: bool, wantUAV: bool): seq<Request>
  {
    (if wantSRV then Texture2DSRVRequests(t, arraySize, 1, mips) else [])
    + (if wantUAV then ViewRequests(t, UAVs2D(arraySize, mips)) else [])
  }

  function Texture2DRequests(t: Handle, desc: TextureDesc, init: Option<InitData>,
                             arraySize: uint32, bindFlags: bv8, mips: uint8): seq<Request>
  {
    [NewTexture(desc, init)]
    + BoundViewRequests(t, arraySize, mips, Has(bindFlags as bv32, BindShaderResource),
                        Has(bindFlags as bv32, BindUnorderedAccess))
  }

  /**
   * The size of the view set a 2D texture gets: one full SRV plus one SRV per mip
   * when there are several, if SHADER_RESOURCE is bound; max(mips, 1) UAVs if
   * UNORDERED_ACCESS is bound; nothing else.
   */
  lemma Texture2DViewCount(t: Handle, desc: TextureDesc, init: Option<InitData>,
                           arraySize: uint32, bindFlags: bv8, mips: uint8)
    ensures |Texture2DRequests(t, desc, init, arraySize, bindFlags, mips)|
         == 1 + (if Has(bindFlags as bv32, BindShaderResource) then 1 + (if mips > 1 then mips else 0) else 0)
              + (if Has(bindFlags as bv32, BindUnorderedAccess) then AtLeastOne(mips) else 0)
  {
  }

  // ---------------------------------------------------------------------------
  // RenderTarget (XSDXResource.cpp:187-313)
  // ---------------------------------------------------------------------------

  /** The texture behind a render target: always bindable as render target and shader resource. */
  function RenderTargetDesc(width: uint32, height: uint32, arraySize: uint32, format: Format,
                            samples: uint8, mips: uint8, bindFlags: bv8): (t: TextureDesc)
    ensures t.Texture2DDesc? && t.arraySize == arraySize && t.mipLevels == mips && t.sampleCount == samples
    ensures Has(t.bindFlags, BindRenderTarget) && Has(t.bindFlags, BindShaderResource)
    ensures Has(t.bindFlags, BindUnorderedAccess) <==> Has(bindFlags as bv32, BindUnorderedAccess)
    ensures t.usage == UsageDefault && t.cpuAccess == 0
    ensures (t.miscFlags == MiscGenerateMips) <==> mips != 1
  {
    Texture2DDesc(format, width, height, arraySize, mips,
                  BindRenderTarget | BindShaderResource | bindFlags as bv32,
                  UsageDefault, 0, samples, 0, if mips == 1 then 0 else MiscGenerateMips)
  }

  /** The RTV at grid cell (slice, mip): one mip, one slice. */
  function SliceRTV(arraySize: uint32, samples: uint32, slice: uint32, mip: uint32): (d: ViewDesc)
    ensures d.kind == RenderTargetView && d.dim == Texture2DViewDimension(arraySize, samples)
    ensures d.firstMip == mip && d.mipCount == 1 && d.firstSlice == slice && d.sliceCount == 1
  {
    ViewDesc(RenderTargetView, Texture2DViewDimension(arraySize, samples), Unknown, mip, 1, slice, 1, 0, 0)
  }

  /** The RTVs of one slice, one per mip. */
  function SliceRTVs(arraySize: uint32, samples: uint32, slice: uint32, mips: uint8): (ds: seq<ViewDesc>)
    ensures |ds| == AtLeastOne(mips)
  {
    var n := AtLeastOne(mips);
    seq(n, m requires 0 <= m < n => SliceRTV(arraySize, samples, slice, m))
  }

  /** The RTV of CreateArray at mip `mip`: one mip, every slice. */
  function ArrayRTV(arraySize: uint32, samples: uint32, mip: uint32): (d: ViewDesc)
    ensures d.kind == RenderTargetView && d.dim == Texture2DViewDimension(arraySize, samples)
    ensures d.firstMip == mip && d.mipCount == 1 && d.firstSlice == 0 && d.sliceCount == Remaining
  {
    ViewDesc(RenderTargetView, Texture2DViewDimension(arraySize, samples), Unknown, mip, 1, 0, Remaining, 0, 0)
  }

  function ArrayRTVs(arraySize: uint32, samples: uint32, mips: uint8): (ds: seq<ViewDesc>)
    ensures |ds| == AtLeastOne(mips)
  {
    var n := AtLeastOne(mips);
    seq(n, m requires 0 <= m < n => ArrayRTV(arraySize, samples, m))
  }

  /** The RTV requests of Create: slice by slice, and within a slice mip by mip. */
  function RTVGridRequests(t: Handle, arraySize: uint32, samples: uint32, mips: uint8, slices: nat): (rs: seq<Request>)
    requires slices <= arraySize
    ensures |rs| == slices * AtLeastOne(mips)
  {
    if slices == 0 then []
    else RTVGridRequests(t, arraySize, samples, mips, slices - 1)
         + ViewRequests(t, SliceRTVs(arraySize, samples, slices - 1, mips))
  }

  /** create: the texture, the full SRV (and per-mip SRVs for the one-level default), the UAVs if asked. */
  function RenderTargetBaseRequests(t: Handle, desc: TextureDesc, arraySize: uint32, samples: uint8,
                                    mips: uint8, bindFlags: bv8): seq<Request>
  {
    [NewTexture(desc, None)]
    + Texture2DSRVRequests(t, arraySize, samples, DefaultSRVMips)
    + (if Has(bindFlags as bv32, BindUnorderedAccess) then ViewRequests(t, UAVs2D(arraySize, mips)) else [])
  }

  /**
   * The mip count RenderTarget::create lets Texture2D::CreateSRV default to.  The
   * default lives in XSDXResource.h, which is not part of this model; it is taken to
   * be one level, so that a render target gets its full SRV and no per-mip SRVs.
   */
  const DefaultSRVMips: uint8 := 1

  // ---------------------------------------------------------------------------
  // DepthStencil (XSDXResource.cpp:330-421)
  // ---------------------------------------------------------------------------

  datatype DepthFormats = DepthFormats(texture: Format, srv: Format)

  /** The typeless storage format and the SRV format for a depth-stencil format. */
  function DepthStencilFormats(format: Format): (f: DepthFormats)
    ensures format == D24UnormS8Uint ==> f == DepthFormats(R24G8Typeless, R24UnormX8Typeless)
    ensures format == D16Unorm ==> f == DepthFormats(R16Typeless, R16Unorm)
    ensures format != D24UnormS8Uint && format != D16Unorm ==> f == DepthFormats(R32Typeless, R32Float)
  {
    match format
    case D24UnormS8Uint => DepthFormats(R24G8Typeless, R24UnormX8Typeless)
    case D16Unorm => DepthFormats(R16Typeless, R16Unorm)
    case _ => DepthFormats(R32Typeless, R32Float)
  }

  function DepthStencilDesc(width: uint32, height: uint32, arraySize: uint32, format: Format,
                            bindFlags: bv8, samples: uint8, mips: uint8): (t: TextureDesc)
    ensures t.Texture2DDesc? && t.format == DepthStencilFormats(format).texture
    ensures Has(t.bindFlags, BindDepthStencil)
    ensures Has(t.bindFlags, BindShaderResource) <==> Has(bindFlags as bv32, BindShaderResource)
    ensures t.width == width && t.height == height && t.arraySize == arraySize && t.mipLevels == mips
    ensures t.bindFlags == BindDepthStencil | bindFlags as bv32
    ensures t.usage == UsageDefault && t.cpuAccess == 0 && t.sampleCount == samples && t.miscFlags == 0
  {
    Texture2DDesc(DepthStencilFormats(format).texture, width, height, arraySize, mips,
                  BindDepthStencil | bindFlags as bv32, UsageDefault, 0, samples, 0, 0)
  }

  /** The SRV of a depth-stencil texture, in the readable format of the table. */
  function DepthSRV(arraySize: uint32, samples: uint32, format: Format): (d: ViewDesc)
    ensures d.kind == ShaderResourceView && d.format == DepthStencilFormats(format).srv
    ensures d.dim == Texture2DViewDimension(arraySize, samples)
  {
    ViewDesc(ShaderResourceView, Texture2DViewDimension(arraySize, samples), DepthStencilFormats(format).srv,
             0, Remaining, 0, Remaining, 0, 0)
  }

  /** The read-only flags of the DSV that can be bound while its texture is sampled. */
  function ReadOnlyFlags(format: Format): (f: bv32)
    ensures Has(f, DsvReadOnlyDepth)
    ensures Has(f, DsvReadOnlyStencil) <==> format == D24UnormS8Uint
  {
    if format == D24UnormS8Uint then DsvReadOnlyDepth | DsvReadOnlyStencil else DsvReadOnlyDepth
  }

  /** The DSV at mip `mip`, in the depth format itself. */
  function MipDSV(arraySize: uint32, samples: uint32, format: Format, mip: uint32, flags: bv32): (d: ViewDesc)
    ensures d.kind == DepthStencilView && d.format == format && d.dim == Texture2DViewDimension(arraySize, samples)
    ensures d.firstMip == mip && d.mipCount == 1 && d.flags == flags
  {
    ViewDesc(DepthStencilView, Texture2DViewDimension(arraySize, samples), format, mip, 1, 0, Remaining, 0, flags)
  }

  /** The DSVs of mips 0 .. n - 1, all with the same flags. */
  function MipDSVs(arraySize: uint32, samples: uint32, format: Format, flags: bv32, n: uint8): (ds: seq<ViewDesc>)
    ensures |ds| == n
  {
    seq(n, m requires 0 <= m < n => MipDSV(arraySize, samples, format, m, flags))
  }

  /** The DSV requests of DepthStencil::Create: per mip the DSV, then with an SRV the read-only DSV. */
  function DSVRequests(t: Handle, arraySize: uint32, samples: uint32, format: Format, srv: bool, n: uint8): seq<Request>
  {
    PairRequests(t, MipDSVs(arraySize, samples, format, 0, n), MipDSVs(arraySize, samples, format, ReadOnlyFlags(format), n), srv, n)
  }

  /** The DSVs (readOnly false) or read-only DSVs (readOnly true) kept for n mips, numbered from `first`. */
  function DSVViews(first: Handle, arraySize: uint32, samples: uint32, format: Format, srv: bool, readOnly: bool,
                    n: uint8): seq<View>
  {
    PairViews(first, MipDSVs(arraySize, samples, format, 0, n), MipDSVs(arraySize, samples, format, ReadOnlyFlags(format), n),
              srv, readOnly, n)
  }

  /**
   * What DepthStencil::Create keeps for mip m: the DSV of mip m in the depth format, where
   * each mip takes one log entry, or two with an SRV; with an SRV the read-only DSV sits
   * right after it and differs only in its read-only flags, and without one it is the DSV.
   */
  lemma DSVViewsAt(first: Handle, arraySize: uint32, samples: uint32, format: Format, srv: bool, n: uint8, m: nat)
    requires m < n
    ensures |DSVViews(first, arraySize, samples, format, srv, false, n)| == n
    ensures |DSVViews(first, arraySize, samples, format, srv, true, n)| == n
    ensures DSVViews(first, arraySize, samples, format, srv, false, n)[m]
         == View(first + (if srv then 2 * m else m), MipDSV(arraySize, samples, format, m, 0))
    ensures DSVViews(first, arraySize, samples, format, srv, true, n)[m]
         == if srv then View(first + 2 * m + 1, MipDSV(arraySize, samples, format, m, ReadOnlyFlags(format)))
            else DSVViews(first, arraySize, samples, format, srv, false, n)[m]
  {
    var ds := MipDSVs(arraySize, samples, format, 0, n);
    var ros := MipDSVs(arraySize, samples, format, ReadOnlyFlags(format), n);
    PairViewsAt(first, ds, ros, srv, false, n, m);
    PairViewsAt(first, ds, ros, srv, true, n, m);
  }

  function DepthStencilRequests(t: Handle, desc: TextureDesc, arraySize: uint32, format: Format,
                                bindFlags: bv8, samples: uint8, mips: uint8): seq<Request>
  {
    var srv := Has(bindFlags as bv32, BindShaderResource);
    [NewTexture(desc, None)]
    + (if srv then [NewView(t, DepthSRV(arraySize, samples, format))] else [])
    + DSVRequests(t, arraySize, samples, format, srv, AtLeastOne(mips))
  }

  // ---------------------------------------------------------------------------
  // Texture3D (XSDXResource.cpp:440-534)
  // ---------------------------------------------------------------------------

  function Texture3DCreateDesc(width: uint32, height: uint32, depth: uint32, format: Format,
                               bindFlags: bv8, mips: uint8, usage: Usage): (t: TextureDesc)
    ensures t.Texture3DDesc? && t.format == format && t.width == width && t.height == height && t.depth == depth
    ensures t.miscFlags == 0 && t.mipLevels == mips && t.bindFlags == bindFlags as bv32 && t.usage == usage
    ensures Has(t.cpuAccess, CpuAccessWrite) <==> usage == UsageDynamic
  {
    Texture3DDesc(format, width, height, depth, mips, bindFlags as bv32, usage, CpuAccessFor(usage), 0)
  }

  /** The initial-data pitches of a volume: rows of stride * width bytes, slices of rows * height. */
  function Texture3DInit(hasInitialData: bool, width: uint32, height: uint32, stride: uint8): (init: Option<InitData>)
    ensures init.Some? <==> hasInitialData
    ensures hasInitialData ==> init.value.rowPitch == Mul32(stride, width)
    ensures hasInitialData ==> init.value.slicePitch == Mul32(Mul32(stride, width), height)
  {
    if hasInitialData then Some(InitData(Mul32(stride, width), Mul32(Mul32(stride, width), height))) else None
  }

  function FullSRV3D(): (d: ViewDesc)
    ensures d.kind == ShaderResourceView && d.dim == Tex3D && d.firstMip == 0 && d.mipCount == Remaining
  {
    ViewDesc(ShaderResourceView, Tex3D, Unknown, 0, Remaining, 0, 0, 0, 0)
  }

  function MipSRV3D(mip: uint32): (d: ViewDesc)
    ensures d.kind == ShaderResourceView && d.dim == Tex3D && d.firstMip == mip && d.mipCount == 1
  {
    ViewDesc(ShaderResourceView, Tex3D, Unknown, mip, 1, 0, 0, 0, 0)
  }

  function MipSRVs3D(mips: uint8): (ds: seq<ViewDesc>)
    ensures |ds| == if mips > 1 then mips else 0
  {
    if mips > 1 then seq(mips, k requires 0 <= k < mips => MipSRV3D(k)) else []
  }

  /** The UAV of mip `mip` of a volume: the depth slices 0 .. (depth >> mip) - 1. */
  function UAV3D(depth: uint32, mip: uint32): (d: ViewDesc)
    ensures d.kind == UnorderedAccessView && d.dim == Tex3D && d.firstMip == mip && d.mipCount == 1
    ensures d.firstSlice == 0 && d.sliceCount == ShiftRight(depth, mip)
  {
    ViewDesc(UnorderedAccessView, Tex3D, Unknown, mip, 1, 0, ShiftRight(depth, mip), 0, 0)
  }

  function UAVs3D(depth: uint32, mips: uint8): (ds: seq<ViewDesc>)
    ensures |ds| == AtLeastOne(mips)
  {
    var n := AtLeastOne(mips);
    seq(n, k requires 0 <= k < n => UAV3D(depth, k))
  }

  function SubSRV3D(mip: uint32): (d: ViewDesc)
    ensures d.kind == ShaderResourceView && d.dim == Tex3D && d.firstMip == mip && d.mipCount == Remaining
  {
    ViewDesc(ShaderResourceView, Tex3D, Unknown, mip, Remaining, 0, 0, 0, 0)
  }

  function SubSRVs3D(t: TextureDesc): (ds: seq<ViewDesc>)
    ensures |ds| == ReportedMipLevels(t) - 1
  {
    var n := ReportedMipLevels(t) - 1;
    seq(n, j requires 0 <= j < n => SubSRV3D(j + 1))
  }

  /** The full SRV of a volume, then (for more than one mip) one SRV per mip. */
  function Texture3DSRVRequests(t: Handle, mips: uint8): (rs: seq<Request>)
    ensures |rs| == 1 + (if mips > 1 then mips else 0)
  {
    [NewView(t, FullSRV3D())] + ViewRequests(t, MipSRVs3D(mips))
  }

  /** The views Texture3D::Create asks for once the volume exists: SRVs if wanted, then UAVs if wanted. */
  function BoundViewRequests3D(t: Handle, depth: uint32, mips: uint8, wantSRV: bool, wantUAV: bool): seq<Request>
  {
    (if wantSRV then Texture3DSRVRequests(t, mips) else [])
    + (if wantUAV then ViewRequests(t, UAVs3D(depth, mips)) else [])
  }

  function Texture3DRequests(t: Handle, desc: TextureDesc, init: Option<InitData>,
                             depth: uint32, bindFlags: bv8, mips: uint8): seq<Request>
  {
    [NewTexture(desc, init)]
    + BoundViewRequests3D(t, depth, mips, Has(bindFlags as bv32, BindShaderResource),
                          Has(bindFlags as bv32, BindUnorderedAccess))
  }

  // ---------------------------------------------------------------------------
  // Buffers (XSDXResource.cpp:26-36, 551-723)
  // ---------------------------------------------------------------------------

  /** The staging copy CreateReadBuffer asks for: readable by the CPU, bound nowhere, no misc flags. */
  function ReadBackDesc(src: BufferDesc): (d: BufferDesc)
    ensures d.byteWidth == src.byteWidth && d.structureByteStride == src.structureByteStride
    ensures d.usage == UsageStaging && d.cpuAccess == CpuAccessRead && d.bindFlags == 0 && d.miscFlags == 0
  {
    src.(cpuAccess := CpuAccessRead, usage := UsageStaging, bindFlags := 0, miscFlags := 0)
  }

  /** A raw buffer allows raw views exactly when it is bound as shader resource or unordered access. */
  function RawBufferDesc(byteWidth: uint32, bindFlags: bv8, usage: Usage): (d: BufferDesc)
    ensures d.byteWidth == byteWidth && d.bindFlags == bindFlags as bv32 && d.usage == usage
    ensures Has(d.cpuAccess, CpuAccessWrite) <==> usage == UsageDynamic
    ensures Has(d.miscFlags, MiscBufferAllowRawViews)
        <==> Has(bindFlags as bv32, BindShaderResource) || Has(bindFlags as bv32, BindUnorderedAccess)
    ensures d.structureByteStride == 0
  {
    var raw := Has(bindFlags as bv32, BindShaderResource) || Has(bindFlags as bv32, BindUnorderedAccess);
    BufferDesc(byteWidth, usage, bindFlags as bv32, CpuAccessFor(usage),
               if raw then MiscBufferAllowRawViews else 0, 0)
  }

  /** Raw views see the buffer as byteWidth / 4 untyped 32-bit elements. */
  function RawSRV(byteWidth: uint32): (d: ViewDesc)
    ensures d.kind == ShaderResourceView && d.dim == BufferExDim && d.format == R32Typeless
    ensures 4 * d.numElements <= byteWidth < 4 * d.numElements + 4
    ensures d.flags == SrvFlagRaw
  {
    ViewDesc(ShaderResourceView, BufferExDim, R32Typeless, 0, 0, 0, 0, byteWidth / 4, SrvFlagRaw)
  }

  function RawUAV(byteWidth: uint32, uavFlags: uint8): (d: ViewDesc)
    ensures d.kind == UnorderedAccessView && d.dim == BufferDim && d.format == R32Typeless
    ensures 4 * d.numElements <= byteWidth < 4 * d.numElements + 4
    ensures d.flags == uavFlags as bv32
  {
    ViewDesc(UnorderedAccessView, BufferDim, R32Typeless, 0, 0, 0, 0, byteWidth / 4, uavFlags as bv32)
  }

  /** A typed buffer holds numElements elements of stride bytes (the product wraps at 2^32). */
  function TypedBufferDesc(numElements: uint32, stride: uint32, bindFlags: bv8, usage: Usage): (d: BufferDesc)
    ensures d.byteWidth == Mul32(numElements, stride) && d.bindFlags == bindFlags as bv32
    ensures d.miscFlags == 0 && d.structureByteStride == 0
    ensures Has(d.cpuAccess, CpuAccessWrite) <==> usage == UsageDynamic
  {
    BufferDesc(Mul32(numElements, stride), usage, bindFlags as bv32, CpuAccessFor(usage), 0, 0)
  }

  function TypedSRV(numElements: uint32, format: Format): (d: ViewDesc)
    ensures d.kind == ShaderResourceView && d.dim == BufferExDim && d.format == format
    ensures d.numElements == numElements && d.flags == 0
  {
    ViewDesc(ShaderResourceView, BufferExDim, format, 0, 0, 0, 0, numElements, 0)
  }

  function TypedUAV(numElements: uint32, format: Format, uavFlags: uint8): (d: ViewDesc)
    ensures d.kind == UnorderedAccessView && d.dim == BufferDim && d.format == format
    ensures d.numElements == numElements && d.flags == uavFlags as bv32
  {
    ViewDesc(UnorderedAccessView, BufferDim, format, 0, 0, 0, 0, numElements, uavFlags as bv32)
  }

  /** A structured buffer is flagged STRUCTURED and carries its element stride. */
  function StructuredBufferDesc(numElements: uint32, stride: uint32, bindFlags: bv8, usage: Usage): (d: BufferDesc)
    ensures d.byteWidth == Mul32(numElements, stride) && d.bindFlags == bindFlags as bv32
    ensures d.miscFlags == MiscBufferStructured && d.structureByteStride == stride
    ensures Has(d.cpuAccess, CpuAccessWrite) <==> usage == UsageDynamic
  {
    BufferDesc(Mul32(numElements, stride), usage, bindFlags as bv32, CpuAccessFor(usage),
               MiscBufferStructured, stride)
  }

  function StructuredSRV(numElements: uint32): (d: ViewDesc)
    ensures d.kind == ShaderResourceView && d.dim == BufferExDim && d.format == Unknown
    ensures d.numElements == numElements
  {
    ViewDesc(ShaderResourceView, BufferExDim, Unknown, 0, 0, 0, 0, numElements, 0)
  }

  function StructuredUAV(numElements: uint32, uavFlags: uint8): (d: ViewDesc)
    ensures d.kind == UnorderedAccessView && d.dim == BufferDim && d.format == Unknown
    ensures d.numElements == numElements && d.flags == uavFlags as bv32
  {
    ViewDesc(UnorderedAccessView, BufferDim, Unknown, 0, 0, 0, 0, numElements, uavFlags as bv32)
  }

  function BufferInit(hasInitialData: bool): (init: Option<InitData>)
    ensures init.Some? <==> hasInitialData
  {
    if hasInitialData then Some(InitData(0, 0)) else None
  }

  /** A buffer, then its SRV and its UAV when those are wanted. */
  function BufferRequests(t: Handle, desc: BufferDesc, hasInitialData: bool,
                          wantSRV: bool, srv: ViewDesc, wantUAV: bool, uav: ViewDesc): (rs: seq<Request>)
    ensures |rs| == 1 + (if wantSRV then 1 else 0) + (if wantUAV then 1 else 0)
    ensures rs[0] == NewBuffer(desc, BufferInit(hasInitialData))
    ensures wantSRV ==> rs[1] == NewView(t, srv)
    ensures wantUAV ==> rs[|rs| - 1] == NewView(t, uav)
  {
    [NewBuffer(desc, BufferInit(hasInitialData))]
    + (if wantSRV then [NewView(t, srv)] else [])
    + (if wantUAV then [NewView(t, uav)] else [])
  }
}
