/**
 * The XSDX resource wrappers: textures, render targets, depth-stencils, volumes and
 * buffers that create their D3D11 object and then fill their lists of views.  Every
 * creation goes through `Device.Create`; a refusal aborts the method (the source's
 * ThrowIfFailed), which returns `ok == false` with the device log holding exactly the
 * prefix of requests accepted before the refusal.  Each method's `Issued` clause names
 * the requests, in order, that the method makes.
 */
module XSDX {
  import opened D3D
  import opened XSDXViews

  /** The shaders RenderTarget::Populate draws with. */
  const ScreenQuadVS := VertexShader("g_uVSScreenQuad")
  const ResamplePS := PixelShader("g_uPSResample")

  /**
   * Creates one view per descriptor on resource t, in order, stopping at the first
   * refusal; the views come back numbered by their places in the device log.
   */
  method CreateViews(device: Device, t: Handle, ds: seq<ViewDesc>) returns (ok: bool, vs: seq<View>)
    modifies device
    ensures Issued(device.accepts, old(device.created), ViewRequests(t, ds), device.created, ok)
    ensures ok ==> vs == Numbered(|old(device.created)|, ds)
  {
    ghost var accepts := device.accepts;
    ghost var c0 := device.created;
    ghost var reqs := ViewRequests(t, ds);
    vs := [];
    IssuedNothing(accepts, c0);
    var k := 0;
    while k < |ds|
      invariant k <= |ds| && device.accepts == accepts
      invariant Issued(accepts, c0, reqs[..k], device.created, true)
      invariant |device.created| == |c0| + k
      invariant vs == Numbered(|c0|, ds[..k])
    {
      ghost var ck := device.created;
      var h := device.Create(NewView(t, ds[k]));
      assert reqs[..k + 1] == reqs[..k] + [reqs[k]];
      IssuedSeq(accepts, c0, reqs[..k], ck, [reqs[k]], device.created, h.Some?);
      if h.None? {
        IssuedPrefix(accepts, c0, reqs[..k + 1], reqs, device.created);
        return false, vs;
      }
      assert ds[..k + 1] == ds[..k] + [ds[k]];
      NumberedSnoc(|c0|, ds[..k], ds[k]);
      vs := vs + [View(h.value, ds[k])];
      k := k + 1;
    }
    assert reqs[..k] == reqs;
    assert ds[..k] == ds;
    ok := true;
  }

  /** Resource::CreateReadBuffer: a CPU-readable staging copy of src's description. */
  method CreateReadBuffer(device: Device, src: BufferRef) returns (dst: Option<BufferRef>)
    modifies device
    ensures Issued(device.accepts, old(device.created), [NewBuffer(ReadBackDesc(src.desc), None)], device.created, dst.Some?)
    ensures dst.Some? ==> dst.value == BufferRef(|old(device.created)|, ReadBackDesc(src.desc))
  {
    var desc := ReadBackDesc(src.desc);
    var h := device.Create(NewBuffer(desc, None));
    if h.None? {
      return None;
    }
    dst := Some(BufferRef(h.value, desc));
  }

  // ---------------------------------------------------------------------------
  // Texture2D
  // ---------------------------------------------------------------------------

  class Texture2D {
    const device: Device
    var texture: Option<TextureRef>
    /** The SRV over the whole texture (Resource::m_pSRV). */
    var srv: Option<View>
    /** One SRV per mip (m_vpSRVs). */
    var srvs: seq<View>
    /** One UAV per mip (m_vpUAVs). */
    var uavs: seq<View>
    /** The SRVs from mip j + 1 to the end of the chain (m_vpSubSRVs). */
    var subSrvs: seq<View>

    constructor (device: Device)
      ensures this.device == device && texture == None && srv == None
      ensures srvs == [] && uavs == [] && subSrvs == []
    {
      this.device := device;
      texture := None;
      srv := None;
      srvs := [];
      uavs := [];
      subSrvs := [];
    }

    method Create(width: uint32, height: uint32, arraySize: uint32, format: Format, bindFlags: bv8,
                  mips: uint8, hasInitialData: bool, stride: uint8, usage: Usage) returns (ok: bool)
      modifies this, device
      ensures Issued(device.accepts, old(device.created),
                     Texture2DRequests(|old(device.created)|,
                                       Texture2DCreateDesc(width, height, arraySize, format, bindFlags, mips, usage),
                                       Texture2DInit(hasInitialData, width, stride), arraySize, bindFlags, mips),
                     device.created, ok)
      ensures ok ==> texture == Some(TextureRef(|old(device.created)|,
                                                Texture2DCreateDesc(width, height, arraySize, format, bindFlags, mips, usage)))
      ensures ok ==> ViewsFrom(|old(device.created)| + 1, arraySize, mips, Has(bindFlags as bv32, BindShaderResource),
                               Has(bindFlags as bv32, BindUnorderedAccess), old(srv), old(srvs), old(uavs))
      ensures subSrvs == old(subSrvs)
    {
      var desc := Texture2DCreateDesc(width, height, arraySize, format, bindFlags, mips, usage);
      var init := Texture2DInit(hasInitialData, width, stride);
      var wantSRV := Has(bindFlags as bv32, BindShaderResource);
      var wantUAV := Has(bindFlags as bv32, BindUnorderedAccess);
      ghost var accepts := device.accepts;
      ghost var c0 := device.created;
      ghost var t := |c0|;
      ghost var views := BoundViewRequests(t, arraySize, mips, wantSRV, wantUAV);
      assert Texture2DRequests(t, desc, init, arraySize, bindFlags, mips) == [NewTexture(desc, init)] + views;
      var h := device.Create(NewTexture(desc, init));
      ghost var c1 := device.created;
      if h.None? {
        IssuedStop(accepts, c0, [NewTexture(desc, init)], c1, views);
        return false;
      }
      texture := Some(TextureRef(h.value, desc));
      ok := CreateBoundViews(arraySize, mips, wantSRV, wantUAV);
      IssuedSeq(accepts, c0, [NewTexture(desc, init)], c1, views, device.created, ok);
    }

    /**
     * The views of a texture whose view requests all succeeded, numbered from `first`: the full SRV and the
     * per-mip SRVs if SHADER_RESOURCE was asked for, then the UAVs if UNORDERED_ACCESS was; a list not
     * asked for keeps its earlier value.
     */
    ghost predicate ViewsFrom(first: Handle, arraySize: uint32, mips: uint8, wantSRV: bool, wantUAV: bool,
                              srv0: Option<View>, srvs0: seq<View>, uavs0: seq<View>)
      reads this
    {
      && srv == (if wantSRV then Some(View(first, FullSRV2D(arraySize, 1))) else srv0)
      && srvs == (if wantSRV && mips > 1 then Numbered(first + 1, MipSRVs2D(arraySize, 1, mips)) else srvs0)
      && uavs == (if wantUAV
                  then Numbered(first + (if wantSRV then 1 + (if mips > 1 then mips else 0) else 0), UAVs2D(arraySize, mips))
                  else uavs0)
    }

    /** The views Create makes after the texture: the SRVs if asked for, then the UAVs if asked for. */
    method CreateBoundViews(arraySize: uint32, mips: uint8, wantSRV: bool, wantUAV: bool) returns (ok: bool)
      requires texture.Some?
      modifies this`srv, this`srvs, this`uavs, device
      ensures Issued(device.accepts, old(device.created),
                     BoundViewRequests(texture.value.handle, arraySize, mips, wantSRV, wantUAV), device.created, ok)
      ensures ok ==> ViewsFrom(|old(device.created)|, arraySize, mips, wantSRV, wantUAV, old(srv), old(srvs), old(uavs))
    {
      ghost var accepts := device.accepts;
      ghost var c0 := device.created;
      ghost var t := texture.value.handle;
      ghost var b := if wantSRV then Texture2DSRVRequests(t, arraySize, 1, mips) else [];
      ghost var c := if wantUAV then ViewRequests(t, UAVs2D(arraySize, mips)) else [];
      if wantSRV {
        ok := CreateSRV(arraySize, 1, mips);
      } else {
        IssuedNothing(accepts, c0);
        ok := true;
      }
      ghost var c1 := device.created;
      if !ok {
        IssuedStop(accepts, c0, b, c1, c);
        return;
      }
      IssuedAll(accepts, c0, b, c1);
      assert |c1| == |c0| + (if wantSRV then 1 + (if mips > 1 then mips else 0) else 0);
      if wantUAV {
        ok := CreateUAV(arraySize, mips);
      } else {
        IssuedNothing(accepts, c1);
      }
      IssuedSeq(accepts, c0, b, c1, c, device.created, ok);
    }

    /** The full SRV, then (for more than one mip) one SRV per mip. */
    method CreateSRV(arraySize: uint32, samples: uint8, mips: uint8) returns (ok: bool)
      requires texture.Some?
      modifies this`srv, this`srvs, device
      ensures Issued(device.accepts, old(device.created), Texture2DSRVRequests(texture.value.handle, arraySize, samples, mips),
                     device.created, ok)
      ensures ok ==> srv == Some(View(|old(device.created)|, FullSRV2D(arraySize, samples)))
      ensures ok ==> srvs == if mips > 1 then Numbered(|old(device.created)| + 1, MipSRVs2D(arraySize, samples, mips))
                             else old(srvs)
    {
      var t := texture.value.handle;
      var full := FullSRV2D(arraySize, samples);
      ghost var accepts := device.accepts;
      ghost var c0 := device.created;
      ghost var b := ViewRequests(t, MipSRVs2D(arraySize, samples, mips));
      var h := device.Create(NewView(t, full));
      ghost var c1 := device.created;
      if h.None? {
        IssuedStop(accepts, c0, [NewView(t, full)], c1, b);
        return false;
      }
      srv := Some(View(h.value, full));
      if mips > 1 {
        ok, srvs := CreateViews(device, t, MipSRVs2D(arraySize, samples, mips));
      } else {
        IssuedNothing(accepts, c1);
        ok := true;
      }
      IssuedSeq(accepts, c0, [NewView(t, full)], c1, b, device.created, ok);
    }

    /** One UAV per mip, and one even for zero mips. */
    method CreateUAV(arraySize: uint32, mips: uint8) returns (ok: bool)
      requires texture.Some?
      modifies this`uavs, device
      ensures Issued(device.accepts, old(device.created), ViewRequests(texture.value.handle, UAVs2D(arraySize, mips)),
                     device.created, ok)
      ensures ok ==> uavs == Numbered(|old(device.created)|, UAVs2D(arraySize, mips))
    {
      ok, uavs := CreateViews(device, texture.value.handle, UAVs2D(arraySize, mips));
    }

    /** One SRV per mip after the first, each reaching to the end of the chain GetDesc reports. */
    method CreateSubSRVs() returns (ok: bool)
      requires texture.Some? && texture.value.desc.Texture2DDesc?
      modifies this`subSrvs, device
      ensures Issued(device.accepts, old(device.created), ViewRequests(texture.value.handle, SubSRVs2D(texture.value.desc)),
                     device.created, ok)
      ensures ok ==> subSrvs == Numbered(|old(device.created)|, SubSRVs2D(texture.value.desc))
      ensures ok ==> SubSRVsBuilt()
    {
      ok, subSrvs := CreateViews(device, texture.value.handle, SubSRVs2D(texture.value.desc));
    }

    /** The sub-views as CreateSubSRVs leaves them: one per mip after the first, view j from mip j + 1 on. */
    ghost predicate SubSRVsBuilt()
      reads this
    {
      texture.Some? && texture.value.desc.Texture2DDesc?
      && |subSrvs| == ReportedMipLevels(texture.value.desc) - 1
      && forall j :: 0 <= j < |subSrvs| ==> subSrvs[j].desc == SubSRV2D(texture.value.desc, j + 1)
    }

    /** GetSubSRV(0) is the full SRV; GetSubSRV(i) for i > 0 is the view from mip i to the end. */
    function GetSubSRV(i: uint8): (v: Option<View>)
      requires i == 0 || i <= |subSrvs|
      reads this
      ensures i == 0 ==> v == srv
      ensures i > 0 ==> v.Some? && v.value in subSrvs
      ensures i > 0 && SubSRVsBuilt() ==> v.value.desc.firstMip == i && v.value.desc.mipCount == Remaining
    {
      if i == 0 then srv else Some(subSrvs[i - 1])
    }

    function GetUAV(i: uint8): (v: View)
      requires i < |uavs|
      reads this
      ensures v in uavs
    {
      uavs[i]
    }

    function GetSRVLevel(i: uint8): (v: View)
      requires i < |srvs|
      reads this
      ensures v in srvs
    {
      srvs[i]
    }
  }

  // ---------------------------------------------------------------------------
  // RenderTarget
  // ---------------------------------------------------------------------------

  class RenderTarget {
    const base: Texture2D
    /** m_vvpRTVs[slice][mip]. */
    var rtvs: seq<seq<View>>

    constructor (device: Device)
      ensures fresh(base) && base.device == device && base.texture == None && base.srv == None
      ensures base.srvs == [] && base.uavs == [] && base.subSrvs == [] && rtvs == []
    {
      base := new Texture2D(device);
      rtvs := [];
    }

    /** RenderTarget::create: the texture, its full SRV, and its UAVs if UNORDERED_ACCESS is asked for. */
    method CreateResource(width: uint32, height: uint32, arraySize: uint32, format: Format,
                          samples: uint8, mips: uint8, bindFlags: bv8) returns (ok: bool)
      modifies base, base.device
      ensures Issued(base.device.accepts, old(base.device.created),
                     RenderTargetBaseRequests(|old(base.device.created)|,
                                              RenderTargetDesc(width, height, arraySize, format, samples, mips, bindFlags),
                                              arraySize, samples, mips, bindFlags),
                     base.device.created, ok)
      ensures ok ==> ResourceFrom(|old(base.device.created)|,
                                  RenderTargetDesc(width, height, arraySize, format, samples, mips, bindFlags),
                                  arraySize, samples, mips, Has(bindFlags as bv32, BindUnorderedAccess),
                                  old(base.srvs), old(base.uavs))
      ensures base.subSrvs == old(base.subSrvs)
    {
      var device := base.device;
      var desc := RenderTargetDesc(width, height, arraySize, format, samples, mips, bindFlags);
      ghost var accepts := device.accepts;
      ghost var c0 := device.created;
      ghost var t := |c0|;
      ghost var b := Texture2DSRVRequests(t, arraySize, samples, DefaultSRVMips);
      ghost var c := if Has(bindFlags as bv32, BindUnorderedAccess) then ViewRequests(t, UAVs2D(arraySize, mips)) else [];
      assert RenderTargetBaseRequests(t, desc, arraySize, samples, mips, bindFlags) == [NewTexture(desc, None)] + b + c;
      var h := device.Create(NewTexture(desc, None));
      ghost var c1 := device.created;
      if h.None? {
        IssuedStop(accepts, c0, [NewTexture(desc, None)], c1, b);
        IssuedStop(accepts, c0, [NewTexture(desc, None)] + b, c1, c);
        return false;
      }
      base.texture := Some(TextureRef(h.value, desc));
      ok := base.CreateSRV(arraySize, samples, DefaultSRVMips);
      ghost var c2 := device.created;
      IssuedSeq(accepts, c0, [NewTexture(desc, None)], c1, b, c2, ok);
      if !ok {
        IssuedStop(accepts, c0, [NewTexture(desc, None)] + b, c2, c);
        return;
      }
      if Has(bindFlags as bv32, BindUnorderedAccess) {
        ok := base.CreateUAV(arraySize, mips);
      } else {
        IssuedNothing(accepts, c2);
      }
      IssuedSeq(accepts, c0, [NewTexture(desc, None)] + b, c2, c, device.created, ok);
    }

    /**
     * What RenderTarget::create leaves in the texture part, its log starting at handle t:
     * the texture, its full SRV right after it, then its UAVs when asked for; lists of a
     * kind it does not create keep their old contents.
     */
    ghost predicate ResourceFrom(t: Handle, desc: TextureDesc, arraySize: uint32, samples: uint8, mips: uint8,
                                 wantUAV: bool, srvs0: seq<View>, uavs0: seq<View>)
      reads base
    {
      && base.texture == Some(TextureRef(t, desc))
      && base.srv == Some(View(t + 1, FullSRV2D(arraySize, samples)))
      && base.srvs == srvs0
      && base.uavs == if wantUAV then Numbered(t + 2, UAVs2D(arraySize, mips)) else uavs0
    }

    /**
     * The arraySize x max(mips, 1) grid: RTV[i][m] is mip m of slice i alone.  The
     * source counts slices in 8 bits, which never leaves the loop for 256 slices or
     * more (SliceLoopAsWrittenNeverExits); the grid here counts as wide as arraySize.
     */
    method Create(width: uint32, height: uint32, arraySize: uint32, format: Format,
                  samples: uint8, mips: uint8, bindFlags: bv8) returns (ok: bool)
      modifies this, base, base.device
      ensures var t := |old(base.device.created)|;
              Issued(base.device.accepts, old(base.device.created),
                     RenderTargetBaseRequests(t, RenderTargetDesc(width, height, arraySize, format, samples, mips, bindFlags),
                                              arraySize, samples, mips, bindFlags)
                     + RTVGridRequests(t, arraySize, samples, mips, arraySize),
                     base.device.created, ok)
      ensures ok ==> ResourceFrom(|old(base.device.created)|,
                                  RenderTargetDesc(width, height, arraySize, format, samples, mips, bindFlags),
                                  arraySize, samples, mips, Has(bindFlags as bv32, BindUnorderedAccess),
                                  old(base.srvs), old(base.uavs))
      ensures base.subSrvs == old(base.subSrvs)
      ensures ok ==> GridOf(rtvs, arraySize, samples, mips, arraySize)
    {
      ghost var device := base.device;
      ghost var accepts := device.accepts;
      ghost var c0 := device.created;
      ghost var t := |c0|;
      ghost var head := RenderTargetBaseRequests(t, RenderTargetDesc(width, height, arraySize, format, samples, mips, bindFlags),
                                                 arraySize, samples, mips, bindFlags);
      ghost var grid := RTVGridRequests(t, arraySize, samples, mips, arraySize);
      ok := CreateResource(width, height, arraySize, format, samples, mips, bindFlags);
      ghost var c1 := device.created;
      if !ok {
        IssuedStop(accepts, c0, head, c1, grid);
        return;
      }
      ok := CreateGrid(arraySize, samples, mips);
      IssuedSeq(accepts, c0, head, c1, grid, device.created, ok);
    }

    /** The loop of Create: for each slice, one RTV per mip of that slice, the slice counted in 32 bits. */
    method CreateGrid(arraySize: uint32, samples: uint8, mips: uint8) returns (ok: bool)
      requires base.texture.Some?
      modifies this`rtvs, base.device
      ensures Issued(base.device.accepts, old(base.device.created),
                     RTVGridRequests(base.texture.value.handle, arraySize, samples, mips, arraySize),
                     base.device.created, ok)
      ensures ok ==> GridOf(rtvs, arraySize, samples, mips, arraySize)
    {
      var device := base.device;
      var tex := base.texture.value.handle;
      ghost var accepts := device.accepts;
      ghost var c0 := device.created;
      ghost var grid := RTVGridRequests(tex, arraySize, samples, mips, arraySize);
      rtvs := [];
      IssuedNothing(accepts, c0);
      var i: uint32 := 0;
      while i < arraySize
        invariant i <= arraySize
        invariant Issued(accepts, c0, RTVGridRequests(tex, arraySize, samples, mips, i), device.created, true)
        invariant device.accepts == accepts
        invariant GridOf(rtvs, arraySize, samples, mips, i)
      {
        ghost var ci := device.created;
        var rowViews;
        ok, rowViews := CreateViews(device, tex, SliceRTVs(arraySize, samples, i, mips));
        IssuedSeq(accepts, c0, RTVGridRequests(tex, arraySize, samples, mips, i), ci,
                  ViewRequests(tex, SliceRTVs(arraySize, samples, i, mips)), device.created, ok);
        if !ok {
          RTVGridPrefix(tex, arraySize, samples, mips, i + 1, arraySize);
          IssuedPrefix(accepts, c0, RTVGridRequests(tex, arraySize, samples, mips, i + 1), grid, device.created);
          return;
        }
        GridOfSnoc(rtvs, rowViews, |ci|, arraySize, samples, mips, i);
        rtvs := rtvs + [rowViews];
        i := i + 1;
      }
      ok := true;
    }

    /** A single row of max(mips, 1) RTVs, each over one mip of every slice. */
    method CreateArray(width: uint32, height: uint32, arraySize: uint32, format: Format,
                       samples: uint8, mips: uint8, bindFlags: bv8) returns (ok: bool)
      modifies this, base, base.device
      ensures var t := |old(base.device.created)|;
              Issued(base.device.accepts, old(base.device.created),
                     RenderTargetBaseRequests(t, RenderTargetDesc(width, height, arraySize, format, samples, mips, bindFlags),
                                              arraySize, samples, mips, bindFlags)
                     + ViewRequests(t, ArrayRTVs(arraySize, samples, mips)),
                     base.device.created, ok)
      ensures ok ==> ResourceFrom(|old(base.device.created)|,
                                  RenderTargetDesc(width, height, arraySize, format, samples, mips, bindFlags),
                                  arraySize, samples, mips, Has(bindFlags as bv32, BindUnorderedAccess),
                                  old(base.srvs), old(base.uavs))
      ensures base.subSrvs == old(base.subSrvs)
      ensures ok ==> |rtvs| == 1 && rtvs[0] == Numbered(|old(base.device.created)| + 2
                         + (if Has(bindFlags as bv32, BindUnorderedAccess) then AtLeastOne(mips) else 0),
                         ArrayRTVs(arraySize, samples, mips))
    {
      var device := base.device;
      ghost var accepts := device.accepts;
      ghost var c0 := device.created;
      ghost var t := |c0|;
      ghost var head := RenderTargetBaseRequests(t, RenderTargetDesc(width, height, arraySize, format, samples, mips, bindFlags),
                                                 arraySize, samples, mips, bindFlags);
      ghost var row := ViewRequests(t, ArrayRTVs(arraySize, samples, mips));
      ok := CreateResource(width, height, arraySize, format, samples, mips, bindFlags);
      ghost var c1 := device.created;
      if !ok {
        IssuedStop(accepts, c0, head, c1, row);
        return;
      }
      IssuedAll(accepts, c0, head, c1);
      assert |c1| == t + 2 + (if Has(bindFlags as bv32, BindUnorderedAccess) then AtLeastOne(mips) else 0);
      var rowViews;
      ok, rowViews := CreateViews(device, base.texture.value.handle, ArrayRTVs(arraySize, samples, mips));
      IssuedSeq(accepts, c0, head, c1, row, device.created, ok);
      rtvs := [rowViews];
    }

    /** The bindings while Populate draws its screen quad into `target`. */
    ghost function PopulateBindings(s: Bindings, target: View, vp: Viewport, srvSrc: Option<Handle>, srvSlot: uint8): Bindings {
      s.(rtv := Some(target.handle), dsv := None, viewport := vp,
         psSRV := Bind(s.psSRV, srvSlot, srvSrc), topology := TriangleStrip,
         vs := Some(ScreenQuadVS), gs := None, ps := Some(ResamplePS))
    }

    /**
     * Resamples srvSrc into RTV[slice][mip]: clear it, draw a full-screen triangle,
     * then unbind the source and the shaders and put back the caller's targets and viewport.
     */
    method Populate(srvSrc: Option<Handle>, srvSlot: uint8, slice: uint8, mip: uint8)
      requires slice < |rtvs| && mip < |rtvs[slice]| && base.texture.Some?
      modifies base.device.immediate
      ensures var ctx := base.device.immediate;
              var target := rtvs[slice][mip];
              var during := PopulateBindings(old(ctx.state), target,
                                             base.device.viewportOf(base.texture.value.desc, target.desc), srvSrc, srvSlot);
              ctx.log == old(ctx.log) + [ClearRTVCall(target.handle, Transparent), DrawCall(3, 0, during)]
              && ctx.state == during.(rtv := old(ctx.state).rtv, dsv := old(ctx.state).dsv,
                                      viewport := old(ctx.state).viewport,
                                      psSRV := Bind(during.psSRV, srvSlot, None), vs := None, ps := None)
      ensures var ctx := base.device.immediate;
              ctx.state.rtv == old(ctx.state.rtv) && ctx.state.dsv == old(ctx.state.dsv)
              && ctx.state.viewport == old(ctx.state.viewport)
              && srvSlot as nat !in ctx.state.psSRV && ctx.state.vs == None && ctx.state.ps == None
    {
      var ctx := base.device.immediate;
      var target := rtvs[slice][mip];
      var rtvBack := ctx.state.rtv;
      var dsvBack := ctx.state.dsv;
      ctx.OMSetRenderTargets(Some(target.handle), None);
      ctx.ClearRenderTargetView(target.handle, Transparent);
      var vpBack := ctx.state.viewport;
      ctx.RSSetViewport(base.device.viewportOf(base.texture.value.desc, target.desc));
      ctx.PSSetShaderResource(srvSlot as nat, srvSrc);
      ctx.IASetPrimitiveTopology(TriangleStrip);
      ctx.VSSetShader(Some(ScreenQuadVS));
      ctx.GSSetShader(None);
      ctx.PSSetShader(Some(ResamplePS));
      ctx.Draw(3, 0);
      ctx.PSSetShaderResource(srvSlot as nat, None);
      ctx.VSSetShader(None);
      ctx.PSSetShader(None);
      ctx.RSSetViewport(vpBack);
      ctx.OMSetRenderTargets(rtvBack, dsvBack);
    }

    function GetRTV(slice: uint8, mip: uint8): (v: View)
      requires slice < |rtvs| && mip < |rtvs[slice]|
      reads this
      ensures v in rtvs[slice]
    {
      rtvs[slice][mip]
    }

    /** The number of rows, truncated to 8 bits as the source's cast does. */
    function GetArraySize(): (n: uint8)
      reads this
      ensures |rtvs| < 0x100 ==> n == |rtvs|
    {
      |rtvs| % 0x100
    }

    function GetNumMips(slice: uint8): (n: uint8)
      requires slice < |rtvs|
      reads this
      ensures |rtvs[slice]| < 0x100 ==> n == |rtvs[slice]|
    {
      |rtvs[slice]| % 0x100
    }
  }

  /** The source's slice counter: an 8-bit value, which ++ takes from 255 back to 0. */
  function NextSlice8(i: uint8): (j: uint8)
    ensures i < 255 ==> j as int == i as int + 1
    ensures i == 255 ==> j == 0
  {
    if i == 255 then 0 else i + 1
  }

  /**
   * RenderTarget::Create as written: with 256 slices or more its 8-bit counter is below
   * arraySize at every value it takes, before and after each ++, so the slice loop never
   * ends; 255 wraps back to 0.
   */
  lemma SliceLoopAsWrittenNeverExits(arraySize: uint32, i: uint8)
    requires arraySize >= 256
    ensures i as int < arraySize as int && NextSlice8(i) as int < arraySize as int
    ensures NextSlice8(255) == 0
  {
  }

  /** The first `n` rows of a render target's RTV grid: row s holds one RTV per mip of slice s. */
  ghost predicate GridOf(rows: seq<seq<View>>, arraySize: uint32, samples: uint32, mips: uint8, n: nat)
    requires n < 0x1_0000_0000
  {
    && |rows| == n
    && (forall s :: 0 <= s < n ==> |rows[s]| == AtLeastOne(mips))
    && (forall s, m :: 0 <= s < n && 0 <= m < AtLeastOne(mips) ==> rows[s][m].desc == SliceRTV(arraySize, samples, s, m))
  }

  lemma GridOfSnoc(rows: seq<seq<View>>, row: seq<View>, first: Handle, arraySize: uint32, samples: uint32, mips: uint8, n: nat)
    requires n + 1 < 0x1_0000_0000 && GridOf(rows, arraySize, samples, mips, n)
    requires row == Numbered(first, SliceRTVs(arraySize, samples, n, mips))
    ensures GridOf(rows + [row], arraySize, samples, mips, n + 1)
  {
  }

  lemma {:induction false} RTVGridPrefix(t: Handle, arraySize: uint32, samples: uint32, mips: uint8, i: nat, n: nat)
    requires i <= n <= arraySize
    ensures var p := RTVGridRequests(t, arraySize, samples, mips, i);
            |p| <= |RTVGridRequests(t, arraySize, samples, mips, n)|
            && p == RTVGridRequests(t, arraySize, samples, mips, n)[..|p|]
  {
    if i < n {
      RTVGridPrefix(t, arraySize, samples, mips, i, n - 1);
    }
  }

  /** What a grid built by RenderTarget.Create answers through its getters. */
  lemma RenderTargetGrid(r: RenderTarget, arraySize: uint32, samples: uint8, mips: uint8, slice: uint8, mip: uint8)
    requires arraySize <= 255 && GridOf(r.rtvs, arraySize, samples, mips, arraySize)
    requires slice < arraySize && mip < AtLeastOne(mips)
    ensures r.GetArraySize() == arraySize && r.GetNumMips(slice) == AtLeastOne(mips)
    ensures var d := r.GetRTV(slice, mip).desc;
            d.firstMip == mip && d.mipCount == 1 && d.firstSlice == slice && d.sliceCount == 1
  {
    assert AtLeastOne(mips) < 0x100;
  }

  // ---------------------------------------------------------------------------
  // DepthStencil
  // ---------------------------------------------------------------------------

  class DepthStencil {
    const base: Texture2D
    /** One DSV per mip (m_vpDSVs). */
    var dsvs: seq<View>
    /** One read-only DSV per mip (m_vpDSVROs); the plain DSV when there is no SRV. */
    var dsvROs: seq<View>

    constructor (device: Device)
      ensures fresh(base) && base.device == device && base.texture == None && base.srv == None
      ensures base.srvs == [] && base.uavs == [] && base.subSrvs == [] && dsvs == [] && dsvROs == []
    {
      base := new Texture2D(device);
      dsvs := [];
      dsvROs := [];
    }

    /**
     * The typeless texture, its SRV if SHADER_RESOURCE is asked for, then for each of
     * max(mips, 1) mips its DSV and, with an SRV, its read-only DSV.
     */
    method Create(width: uint32, height: uint32, arraySize: uint32, format: Format,
                  bindFlags: bv8, samples: uint8, mips: uint8) returns (ok: bool)
      modifies this, base`texture, base`srv, base.device
      ensures var t := |old(base.device.created)|;
              Issued(base.device.accepts, old(base.device.created),
                     DepthStencilRequests(t, DepthStencilDesc(width, height, arraySize, format, bindFlags, samples, mips),
                                          arraySize, format, bindFlags, samples, mips),
                     base.device.created, ok)
      ensures ok ==> base.texture == Some(TextureRef(|old(base.device.created)|,
                                                     DepthStencilDesc(width, height, arraySize, format, bindFlags, samples, mips)))
      ensures ok ==> base.srv == if Has(bindFlags as bv32, BindShaderResource)
                                 then Some(View(|old(base.device.created)| + 1, DepthSRV(arraySize, samples, format)))
                                 else old(base.srv)
      ensures ok ==> var first := |old(base.device.created)| + (if Has(bindFlags as bv32, BindShaderResource) then 2 else 1);
                     dsvs == DSVViews(first, arraySize, samples, format, Has(bindFlags as bv32, BindShaderResource), false, AtLeastOne(mips))
                     && dsvROs == DSVViews(first, arraySize, samples, format, Has(bindFlags as bv32, BindShaderResource), true, AtLeastOne(mips))
    {
      var device := base.device;
      var desc := DepthStencilDesc(width, height, arraySize, format, bindFlags, samples, mips);
      var srv := Has(bindFlags as bv32, BindShaderResource);
      ghost var accepts := device.accepts;
      ghost var c0 := device.created;
      ghost var t := |c0|;
      ghost var head := [NewTexture(desc, None)] + (if srv then [NewView(t, DepthSRV(arraySize, samples, format))] else []);
      ghost var c := DSVRequests(t, arraySize, samples, format, srv, AtLeastOne(mips));
      assert DepthStencilRequests(t, desc, arraySize, format, bindFlags, samples, mips) == head + c;
      ok := CreateTexture(desc, arraySize, format, srv, samples);
      ghost var c2 := device.created;
      if !ok {
        IssuedStop(accepts, c0, head, c2, c);
        return;
      }
      var n := AtLeastOne(mips);
      ok, dsvs, dsvROs := CreateViewPairs(device, base.texture.value.handle, MipDSVs(arraySize, samples, format, 0, n),
                                          MipDSVs(arraySize, samples, format, ReadOnlyFlags(format), n), srv, n);
      IssuedSeq(accepts, c0, head, c2, c, device.created, ok);
    }

    /** The first half of Create: the typeless texture, then its SRV when `srv` asks for one. */
    method CreateTexture(desc: TextureDesc, arraySize: uint32, format: Format, srv: bool, samples: uint8) returns (ok: bool)
      modifies base`texture, base`srv, base.device
      ensures var t := |old(base.device.created)|;
              Issued(base.device.accepts, old(base.device.created),
                     [NewTexture(desc, None)] + (if srv then [NewView(t, DepthSRV(arraySize, samples, format))] else []),
                     base.device.created, ok)
      ensures ok ==> |base.device.created| == |old(base.device.created)| + (if srv then 2 else 1)
      ensures ok ==> base.texture == Some(TextureRef(|old(base.device.created)|, desc))
      ensures ok ==> base.srv == if srv then Some(View(|old(base.device.created)| + 1, DepthSRV(arraySize, samples, format)))
                                 else old(base.srv)
    {
      var device := base.device;
      ghost var accepts := device.accepts;
      ghost var c0 := device.created;
      ghost var b := if srv then [NewView(|c0|, DepthSRV(arraySize, samples, format))] else [];
      var h := device.Create(NewTexture(desc, None));
      ghost var c1 := device.created;
      if h.None? {
        IssuedStop(accepts, c0, [NewTexture(desc, None)], c1, b);
        return false;
      }
      base.texture := Some(TextureRef(h.value, desc));
      if srv {
        var hs := device.Create(NewView(h.value, DepthSRV(arraySize, samples, format)));
        IssuedSeq(accepts, c0, [NewTexture(desc, None)], c1, b, device.created, hs.Some?);
        if hs.None? {
          return false;
        }
        base.srv := Some(View(hs.value, DepthSRV(arraySize, samples, format)));
      } else {
        IssuedNothing(accepts, c1);
        IssuedSeq(accepts, c0, [NewTexture(desc, None)], c1, b, device.created, true);
      }
      ok := true;
    }

    function GetDSV(mip: uint8): (v: View)
      requires mip < |dsvs|
      reads this
      ensures v in dsvs
    {
      dsvs[mip]
    }

    function GetDSVRO(mip: uint8): (v: View)
      requires mip < |dsvROs|
      reads this
      ensures v in dsvROs
    {
      dsvROs[mip]
    }

    /** The number of DSVs, truncated to 8 bits as the source's cast does. */
    function GetNumMips(): (n: uint8)
      reads this
      ensures |dsvs| < 0x100 ==> n == |dsvs|
    {
      |dsvs| % 0x100
    }
  }

  /**
   * The loop of DepthStencil::Create in general form: for each k < n, the view ds[k] and,
   * when paired, its twin ros[k]; stops at the first refusal.
   */
  method CreateViewPairs(device: Device, t: Handle, ds: seq<ViewDesc>, ros: seq<ViewDesc>, paired: bool, n: uint8)
    returns (ok: bool, vs: seq<View>, vros: seq<View>)
    requires n <= |ds| && n <= |ros|
    modifies device
    ensures Issued(device.accepts, old(device.created), PairRequests(t, ds, ros, paired, n), device.created, ok)
    ensures ok ==> vs == PairViews(|old(device.created)|, ds, ros, paired, false, n)
    ensures ok ==> vros == PairViews(|old(device.created)|, ds, ros, paired, true, n)
  {
    ghost var accepts := device.accepts;
    ghost var c0 := device.created;
    vs, vros := [], [];
    IssuedNothing(accepts, c0);
    var i: uint8 := 0;
    while i < n
      invariant i <= n && device.accepts == accepts
      invariant Issued(accepts, c0, PairRequests(t, ds, ros, paired, i), device.created, true)
      invariant |device.created| == PairStart(|c0|, paired, i)
      invariant vs == PairViews(|c0|, ds, ros, paired, false, i)
      invariant vros == PairViews(|c0|, ds, ros, paired, true, i)
    {
      ghost var ci := device.created;
      var v, vr;
      ok, v, vr := CreatePair(device, t, ds[i], ros[i], paired);
      PairLoopStep(accepts, c0, ci, device.created, t, ds, ros, paired, i, n, ok);
      if !ok {
        return;
      }
      vs, vros := vs + [v], vros + [vr];
      i := i + 1;
    }
    ok := true;
  }

  /** One turn of a paired loop extends the run by that step's requests, or aborts the whole loop. */
  lemma PairLoopStep(accepts: Oracle, c0: seq<Request>, ci: seq<Request>, c1: seq<Request>, t: Handle,
                     ds: seq<ViewDesc>, ros: seq<ViewDesc>, paired: bool, i: nat, n: nat, ok: bool)
    requires i < n <= |ds| && n <= |ros|
    requires Issued(accepts, c0, PairRequests(t, ds, ros, paired, i), ci, true)
    requires Issued(accepts, ci, PairStep(t, ds[i], ros[i], paired), c1, ok)
    ensures ok ==> Issued(accepts, c0, PairRequests(t, ds, ros, paired, i + 1), c1, true)
    ensures ok ==> |c1| == |ci| + (if paired then 2 else 1)
    ensures !ok ==> Issued(accepts, c0, PairRequests(t, ds, ros, paired, n), c1, false)
  {
    IssuedSeq(accepts, c0, PairRequests(t, ds, ros, paired, i), ci, PairStep(t, ds[i], ros[i], paired), c1, ok);
    if ok {
      IssuedAll(accepts, ci, PairStep(t, ds[i], ros[i], paired), c1);
    } else {
      PairRequestsPrefix(t, ds, ros, paired, i + 1, n);
      IssuedPrefix(accepts, c0, PairRequests(t, ds, ros, paired, i + 1), PairRequests(t, ds, ros, paired, n), c1);
    }
  }

  /** One step of a paired loop: the view d, then (when paired) its twin r; unpaired, the twin is d's view. */
  method CreatePair(device: Device, t: Handle, d: ViewDesc, r: ViewDesc, paired: bool) returns (ok: bool, v: View, vr: View)
    modifies device
    ensures Issued(device.accepts, old(device.created), PairStep(t, d, r, paired), device.created, ok)
    ensures ok ==> v == PairView(|old(device.created)|, d, r, paired, false, 0)
    ensures ok ==> vr == PairView(|old(device.created)|, d, r, paired, true, 0)
  {
    ghost var accepts := device.accepts;
    ghost var c0 := device.created;
    ghost var rest := if paired then [NewView(t, r)] else [];
    assert PairStep(t, d, r, paired) == [NewView(t, d)] + rest;
    var h := device.Create(NewView(t, d));
    ghost var c1 := device.created;
    if h.None? {
      IssuedStop(accepts, c0, [NewView(t, d)], c1, rest);
      return false, View(0, d), View(0, d);
    }
    v := View(h.value, d);
    if paired {
      var h2 := device.Create(NewView(t, r));
      IssuedSeq(accepts, c0, [NewView(t, d)], c1, rest, device.created, h2.Some?);
      if h2.None? {
        return false, v, v;
      }
      vr := View(h2.value, r);
    } else {
      IssuedNothing(accepts, c1);
      IssuedSeq(accepts, c0, [NewView(t, d)], c1, rest, device.created, true);
      vr := v;
    }
    ok := true;
  }

  // ---------------------------------------------------------------------------
  // Texture3D
  // ---------------------------------------------------------------------------

  class Texture3D {
    const device: Device
    var texture: Option<TextureRef>
    /** The SRV over the whole volume (Resource::m_pSRV). */
    var srv: Option<View>
    /** One SRV per mip (m_vpSRVs). */
    var srvs: seq<View>
    /** One UAV per mip, each over the depth slices that mip has (m_vpUAVs). */
    var uavs: seq<View>
    /** The SRVs from mip j + 1 to the end of the chain (m_vpSubSRVs). */
    var subSrvs: seq<View>

    constructor (device: Device)
      ensures this.device == device && texture == None && srv == None
      ensures srvs == [] && uavs == [] && subSrvs == []
    {
      this.device := device;
      texture := None;
      srv := None;
      srvs := [];
      uavs := [];
      subSrvs := [];
    }

    method Create(width: uint32, height: uint32, depth: uint32, format: Format, bindFlags: bv8,
                  mips: uint8, hasInitialData: bool, stride: uint8, usage: Usage) returns (ok: bool)
      modifies this, device
      ensures Issued(device.accepts, old(device.created),
                     Texture3DRequests(|old(device.created)|,
                                       Texture3DCreateDesc(width, height, depth, format, bindFlags, mips, usage),
                                       Texture3DInit(hasInitialData, width, height, stride), depth, bindFlags, mips),
                     device.created, ok)
      ensures ok ==> texture == Some(TextureRef(|old(device.created)|,
                                                Texture3DCreateDesc(width, height, depth, format, bindFlags, mips, usage)))
      ensures ok ==> ViewsFrom(|old(device.created)| + 1, depth, mips, Has(bindFlags as bv32, BindShaderResource),
                               Has(bindFlags as bv32, BindUnorderedAccess), old(srv), old(srvs), old(uavs))
      ensures subSrvs == old(subSrvs)
    {
      var desc := Texture3DCreateDesc(width, height, depth, format, bindFlags, mips, usage);
      var init := Texture3DInit(hasInitialData, width, height, stride);
      var wantSRV := Has(bindFlags as bv32, BindShaderResource);
      var wantUAV := Has(bindFlags as bv32, BindUnorderedAccess);
      ghost var accepts := device.accepts;
      ghost var c0 := device.created;
      ghost var t := |c0|;
      ghost var views := BoundViewRequests3D(t, depth, mips, wantSRV, wantUAV);
      assert Texture3DRequests(t, desc, init, depth, bindFlags, mips) == [NewTexture(desc, init)] + views;
      var h := device.Create(NewTexture(desc, init));
      ghost var c1 := device.created;
      if h.None? {
        IssuedStop(accepts, c0, [NewTexture(desc, init)], c1, views);
        return false;
      }
      assert |c1| == t + 1 && h.value == t;
      texture := Some(TextureRef(h.value, desc));
      ok := CreateBoundViews(depth, mips, wantSRV, wantUAV);
      IssuedSeq(accepts, c0, [NewTexture(desc, init)], c1, views, device.created, ok);
    }

    /**
     * The views of a volume whose view requests all succeeded, numbered from `first`: the full SRV and the
     * per-mip SRVs if SHADER_RESOURCE was asked for, then the UAVs if UNORDERED_ACCESS was; a list not
     * asked for keeps its earlier value.
     */
    ghost predicate ViewsFrom(first: Handle, depth: uint32, mips: uint8, wantSRV: bool, wantUAV: bool,
                              srv0: Option<View>, srvs0: seq<View>, uavs0: seq<View>)
      reads this
    {
      && srv == (if wantSRV then Some(View(first, FullSRV3D())) else srv0)
      && srvs == (if wantSRV && mips > 1 then Numbered(first + 1, MipSRVs3D(mips)) else srvs0)
      && uavs == (if wantUAV
                  then Numbered(first + (if wantSRV then 1 + (if mips > 1 then mips else 0) else 0), UAVs3D(depth, mips))
                  else uavs0)
    }

    /** The views Create makes after the volume: the SRVs if asked for, then the UAVs if asked for. */
    method CreateBoundViews(depth: uint32, mips: uint8, wantSRV: bool, wantUAV: bool) returns (ok: bool)
      requires texture.Some?
      modifies this`srv, this`srvs, this`uavs, device
      ensures Issued(device.accepts, old(device.created),
                     BoundViewRequests3D(texture.value.handle, depth, mips, wantSRV, wantUAV), device.created, ok)
      ensures ok ==> ViewsFrom(|old(device.created)|, depth, mips, wantSRV, wantUAV, old(srv), old(srvs), old(uavs))
    {
      ghost var accepts := device.accepts;
      ghost var c0 := device.created;
      ghost var t := texture.value.handle;
      ghost var b := if wantSRV then Texture3DSRVRequests(t, mips) else [];
      ghost var c := if wantUAV then ViewRequests(t, UAVs3D(depth, mips)) else [];
      if wantSRV {
        ok := CreateSRVs(mips);
      } else {
        IssuedNothing(accepts, c0);
        ok := true;
      }
      ghost var c1 := device.created;
      if !ok {
        IssuedStop(accepts, c0, b, c1, c);
        return;
      }
      IssuedAll(accepts, c0, b, c1);
      assert |c1| == |c0| + (if wantSRV then 1 + (if mips > 1 then mips else 0) else 0);
      if wantUAV {
        ok, uavs := CreateViews(device, texture.value.handle, UAVs3D(depth, mips));
      } else {
        IssuedNothing(accepts, c1);
      }
      IssuedSeq(accepts, c0, b, c1, c, device.created, ok);
    }

    /** The SRV part of Create: the full SRV, then (for more than one mip) one SRV per mip. */
    method CreateSRVs(mips: uint8) returns (ok: bool)
      requires texture.Some?
      modifies this`srv, this`srvs, device
      ensures Issued(device.accepts, old(device.created), Texture3DSRVRequests(texture.value.handle, mips),
                     device.created, ok)
      ensures ok ==> srv == Some(View(|old(device.created)|, FullSRV3D()))
      ensures ok ==> srvs == if mips > 1 then Numbered(|old(device.created)| + 1, MipSRVs3D(mips)) else old(srvs)
    {
      var t := texture.value.handle;
      ghost var accepts := device.accepts;
      ghost var c0 := device.created;
      ghost var b := ViewRequests(t, MipSRVs3D(mips));
      var h := device.Create(NewView(t, FullSRV3D()));
      ghost var c1 := device.created;
      if h.None? {
        IssuedStop(accepts, c0, [NewView(t, FullSRV3D())], c1, b);
        return false;
      }
      srv := Some(View(h.value, FullSRV3D()));
      if mips > 1 {
        ok, srvs := CreateViews(device, t, MipSRVs3D(mips));
      } else {
        IssuedNothing(accepts, c1);
        ok := true;
      }
      IssuedSeq(accepts, c0, [NewView(t, FullSRV3D())], c1, b, device.created, ok);
    }

    /** One SRV per mip after the first, each reaching to the end of the chain GetDesc reports. */
    method CreateSubSRVs() returns (ok: bool)
      requires texture.Some? && texture.value.desc.Texture3DDesc?
      modifies this`subSrvs, device
      ensures Issued(device.accepts, old(device.created), ViewRequests(texture.value.handle, SubSRVs3D(texture.value.desc)),
                     device.created, ok)
      ensures ok ==> subSrvs == Numbered(|old(device.created)|, SubSRVs3D(texture.value.desc))
      ensures ok ==> SubSRVsBuilt()
    {
      ok, subSrvs := CreateViews(device, texture.value.handle, SubSRVs3D(texture.value.desc));
    }

    /** The sub-views as CreateSubSRVs leaves them: one per mip after the first, view j from mip j + 1 on. */
    ghost predicate SubSRVsBuilt()
      reads this
    {
      texture.Some? && texture.value.desc.Texture3DDesc?
      && |subSrvs| == ReportedMipLevels(texture.value.desc) - 1
      && forall j :: 0 <= j < |subSrvs| ==> subSrvs[j].desc == SubSRV3D(j + 1)
    }

    /** GetSubSRV(0) is the full SRV; GetSubSRV(i) for i > 0 is the view from mip i to the end. */
    function GetSubSRV(i: uint8): (v: Option<View>)
      requires i == 0 || i <= |subSrvs|
      reads this
      ensures i == 0 ==> v == srv
      ensures i > 0 ==> v.Some? && v.value in subSrvs
      ensures i > 0 && SubSRVsBuilt() ==> v.value.desc.firstMip == i && v.value.desc.mipCount == Remaining
    {
      if i == 0 then srv else Some(subSrvs[i - 1])
    }

    function GetUAV(i: uint8): (v: View)
      requires i < |uavs|
      reads this
      ensures v in uavs
    {
      uavs[i]
    }

    function GetSRVLevel(i: uint8): (v: View)
      requires i < |srvs|
      reads this
      ensures v in srvs
    {
      srvs[i]
    }
  }

  // ---------------------------------------------------------------------------
  // Buffers
  // ---------------------------------------------------------------------------

  class RawBuffer {
    const device: Device
    var buffer: Option<BufferRef>
    /** Resource::m_pSRV. */
    var srv: Option<View>
    /** m_pUAV. */
    var uav: Option<View>

    constructor (device: Device)
      ensures this.device == device && buffer == None && srv == None && uav == None
    {
      this.device := device;
      buffer := None;
      srv := None;
      uav := None;
    }

    /** A buffer of byteWidth bytes allowing raw views, with a raw SRV and UAV as the bind flags ask. */
    method Create(byteWidth: uint32, bindFlags: bv8, hasInitialData: bool, uavFlags: uint8, usage: Usage) returns (ok: bool)
      modifies this, device
      ensures Issued(device.accepts, old(device.created),
                     BufferRequests(|old(device.created)|, RawBufferDesc(byteWidth, bindFlags, usage), hasInitialData,
                                    Has(bindFlags as bv32, BindShaderResource), RawSRV(byteWidth),
                                    Has(bindFlags as bv32, BindUnorderedAccess), RawUAV(byteWidth, uavFlags)),
                     device.created, ok)
      ensures ok ==> BuiltWith(|old(device.created)|, RawBufferDesc(byteWidth, bindFlags, usage),
                               Has(bindFlags as bv32, BindShaderResource), RawSRV(byteWidth),
                               Has(bindFlags as bv32, BindUnorderedAccess), RawUAV(byteWidth, uavFlags),
                               old(srv), old(uav))
    {
      ok := Build(RawBufferDesc(byteWidth, bindFlags, usage), hasInitialData,
                  Has(bindFlags as bv32, BindShaderResource), RawSRV(byteWidth),
                  Has(bindFlags as bv32, BindUnorderedAccess), RawUAV(byteWidth, uavFlags));
    }

    /** The raw SRV over byteWidth / 4 32-bit elements. */
    method CreateSRV(byteWidth: uint32) returns (ok: bool)
      requires buffer.Some?
      modifies this`srv, device
      ensures Issued(device.accepts, old(device.created), [NewView(buffer.value.handle, RawSRV(byteWidth))], device.created, ok)
      ensures ok ==> srv == Some(View(|old(device.created)|, RawSRV(byteWidth)))
    {
      ok := CreateSRVFrom(RawSRV(byteWidth));
    }

    /** The SRV with descriptor d, the step every buffer kind's CreateSRV shares. */
    method CreateSRVFrom(d: ViewDesc) returns (ok: bool)
      requires buffer.Some?
      modifies this`srv, device
      ensures Issued(device.accepts, old(device.created), [NewView(buffer.value.handle, d)], device.created, ok)
      ensures ok ==> srv == Some(View(|old(device.created)|, d))
    {
      var h := device.Create(NewView(buffer.value.handle, d));
      ok := h.Some?;
      if ok {
        srv := Some(View(h.value, d));
      }
    }

    /** The state Create leaves: the buffer at t, then the wanted SRV and UAV in log order. */
    ghost predicate BuiltWith(t: Handle, desc: BufferDesc, wantSRV: bool, srvDesc: ViewDesc, wantUAV: bool, uavDesc: ViewDesc,
                              oldSrv: Option<View>, oldUav: Option<View>)
      reads this
    {
      buffer == Some(BufferRef(t, desc))
      && srv == (if wantSRV then Some(View(t + 1, srvDesc)) else oldSrv)
      && uav == (if wantUAV then Some(View(t + 1 + (if wantSRV then 1 else 0), uavDesc)) else oldUav)
    }

    /** What RawBuffer, TypedBuffer and StructuredBuffer::Create share: the buffer, the SRV, the UAV. */
    method Build(desc: BufferDesc, hasInitialData: bool, wantSRV: bool, srvDesc: ViewDesc, wantUAV: bool, uavDesc: ViewDesc)
      returns (ok: bool)
      modifies this, device
      ensures Issued(device.accepts, old(device.created),
                     BufferRequests(|old(device.created)|, desc, hasInitialData, wantSRV, srvDesc, wantUAV, uavDesc),
                     device.created, ok)
      ensures ok ==> BuiltWith(|old(device.created)|, desc, wantSRV, srvDesc, wantUAV, uavDesc, old(srv), old(uav))
    {
      ghost var accepts := device.accepts;
      ghost var c0 := device.created;
      ghost var t := |c0|;
      ghost var a := [NewBuffer(desc, BufferInit(hasInitialData))];
      ghost var b := if wantSRV then [NewView(t, srvDesc)] else [];
      ghost var c := if wantUAV then [NewView(t, uavDesc)] else [];
      assert BufferRequests(t, desc, hasInitialData, wantSRV, srvDesc, wantUAV, uavDesc) == a + b + c;
      var h := device.Create(NewBuffer(desc, BufferInit(hasInitialData)));
      ghost var c1 := device.created;
      if h.None? {
        IssuedStop(accepts, c0, a, c1, b);
        IssuedStop(accepts, c0, a + b, c1, c);
        return false;
      }
      buffer := Some(BufferRef(h.value, desc));
      if wantSRV {
        ok := CreateSRVFrom(srvDesc);
      } else {
        IssuedNothing(accepts, c1);
        ok := true;
      }
      ghost var c2 := device.created;
      IssuedSeq(accepts, c0, a, c1, b, c2, ok);
      if !ok {
        IssuedStop(accepts, c0, a + b, c2, c);
        return;
      }
      IssuedAll(accepts, c0, a + b, c2);
      if wantUAV {
        var hu := device.Create(NewView(h.value, uavDesc));
        ok := hu.Some?;
        if ok {
          uav := Some(View(hu.value, uavDesc));
        }
      } else {
        IssuedNothing(accepts, c2);
      }
      IssuedSeq(accepts, c0, a + b, c2, c, device.created, ok);
    }
  }

  class TypedBuffer {
    const base: RawBuffer

    constructor (device: Device)
      ensures fresh(base) && base.device == device && base.buffer == None && base.srv == None && base.uav == None
    {
      base := new RawBuffer(device);
    }

    /** numElements elements of stride bytes in format `format`, with typed views as the bind flags ask. */
    method Create(numElements: uint32, stride: uint32, format: Format, bindFlags: bv8, hasInitialData: bool,
                  uavFlags: uint8, usage: Usage) returns (ok: bool)
      modifies base, base.device
      ensures Issued(base.device.accepts, old(base.device.created),
                     BufferRequests(|old(base.device.created)|, TypedBufferDesc(numElements, stride, bindFlags, usage),
                                    hasInitialData, Has(bindFlags as bv32, BindShaderResource), TypedSRV(numElements, format),
                                    Has(bindFlags as bv32, BindUnorderedAccess), TypedUAV(numElements, format, uavFlags)),
                     base.device.created, ok)
      ensures ok ==> base.BuiltWith(|old(base.device.created)|, TypedBufferDesc(numElements, stride, bindFlags, usage),
                                    Has(bindFlags as bv32, BindShaderResource), TypedSRV(numElements, format),
                                    Has(bindFlags as bv32, BindUnorderedAccess), TypedUAV(numElements, format, uavFlags),
                                    old(base.srv), old(base.uav))
    {
      ok := base.Build(TypedBufferDesc(numElements, stride, bindFlags, usage), hasInitialData,
                       Has(bindFlags as bv32, BindShaderResource), TypedSRV(numElements, format),
                       Has(bindFlags as bv32, BindUnorderedAccess), TypedUAV(numElements, format, uavFlags));
    }

    method CreateSRV(numElements: uint32, format: Format) returns (ok: bool)
      requires base.buffer.Some?
      modifies base`srv, base.device
      ensures Issued(base.device.accepts, old(base.device.created),
                     [NewView(base.buffer.value.handle, TypedSRV(numElements, format))], base.device.created, ok)
      ensures ok ==> base.srv == Some(View(|old(base.device.created)|, TypedSRV(numElements, format)))
    {
      ok := base.CreateSRVFrom(TypedSRV(numElements, format));
    }
  }

  class StructuredBuffer {
    const base: RawBuffer

    constructor (device: Device)
      ensures fresh(base) && base.device == device && base.buffer == None && base.srv == None && base.uav == None
    {
      base := new RawBuffer(device);
    }

    /** numElements structures of stride bytes, with structured views as the bind flags ask. */
    method Create(numElements: uint32, stride: uint32, bindFlags: bv8, hasInitialData: bool,
                  uavFlags: uint8, usage: Usage) returns (ok: bool)
      modifies base, base.device
      ensures Issued(base.device.accepts, old(base.device.created),
                     BufferRequests(|old(base.device.created)|, StructuredBufferDesc(numElements, stride, bindFlags, usage),
                                    hasInitialData, Has(bindFlags as bv32, BindShaderResource), StructuredSRV(numElements),
                                    Has(bindFlags as bv32, BindUnorderedAccess), StructuredUAV(numElements, uavFlags)),
                     base.device.created, ok)
      ensures ok ==> base.BuiltWith(|old(base.device.created)|, StructuredBufferDesc(numElements, stride, bindFlags, usage),
                                    Has(bindFlags as bv32, BindShaderResource), StructuredSRV(numElements),
                                    Has(bindFlags as bv32, BindUnorderedAccess), StructuredUAV(numElements, uavFlags),
                                    old(base.srv), old(base.uav))
    {
      ok := base.Build(StructuredBufferDesc(numElements, stride, bindFlags, usage), hasInitialData,
                       Has(bindFlags as bv32, BindShaderResource), StructuredSRV(numElements),
                       Has(bindFlags as bv32, BindUnorderedAccess), StructuredUAV(numElements, uavFlags));
    }

    method CreateSRV(numElements: uint32) returns (ok: bool)
      requires base.buffer.Some?
      modifies base`srv, base.device
      ensures Issued(base.device.accepts, old(base.device.created),
                     [NewView(base.buffer.value.handle, StructuredSRV(numElements))], base.device.created, ok)
      ensures ok ==> base.srv == Some(View(|old(base.device.created)|, StructuredSRV(numElements)))
    {
      ok := base.CreateSRVFrom(StructuredSRV(numElements));
    }
  }
}
