/**
 * `CGSH_OpenGL` as an object: the fields the renderer updates in place,
 * with each operation a method proved to move the object's state
 * (`Model()`) exactly as the matching function of `RendererSpec` says.
 * The properties proved about those functions therefore hold of the
 * object.
 */
module Renderer {
  import opened GsRegs
  import opened Wrappers
  import opened ShaderCaps
  import opened CapsDerivation
  import opened ResourceCaches
  import opened RenderState
  import opened GlState
  import opened Primitives
  import opened Assembler
  import opened RendererSpec

  /** One re-validation of `DoRenderPass`: a stale piece of state is re-sent and its bit set. */
  function Revalidated(valid: bv32, bit: bv32): (r: bv32)
    requires IsSingleBit(bit)
    ensures r == valid | bit
  {
    if valid & bit == 0 then valid | bit else valid
  }

  /**
   * `std::find_if` over a buffer cache: the index of the first entry
   * satisfying `p`, found by a linear scan.
   */
  method FindIf<T>(s: seq<T>, p: T -> bool) returns (r: Option<nat>)
    ensures r == FindFirst(s, p)
  {
    var i := 0;
    while i < |s|
      invariant i <= |s|
      invariant forall j :: 0 <= j < i ==> !p(s[j])
    {
      if p(s[i]) {
        return Some(i);
      }
      i := i + 1;
    }
    return None;
  }

  class GsRenderer {
    /** `m_nReg`: the register file. */
    var regs: RegFile
    var drawEnabled: bool
    var forceBilinear: bool
    /** `m_VtxBuffer`: the three-slot kick window. */
    const vtxBuffer: array<Vertex>
    var vtxCount: nat
    var primitiveType: nat
    var primitiveMode: nat
    var primOfs: PrimOffset
    /** `m_vertexBuffer`: the pending draw batch. */
    var vertexBuffer: seq<PrimVertex>
    var validGlState: bv32
    var drawCallCount: nat
    /** The draw calls issued so far. */
    var draws: seq<DrawCall>
    var renderState: RenderState
    var fragmentParams: FragmentParams
    var framebuffers: seq<Framebuffer>
    var depthbuffers: seq<Depthbuffer>
    var shaders: map<Caps, Caps>
    var drawingToDepth: bool

    /** The object's state as a `RendererSpec.Machine`. */
    ghost function Model(): Machine
      reads this, vtxBuffer
    {
      Machine(FrontEnd(regs, drawEnabled, forceBilinear, vtxBuffer[..], vtxCount, primitiveType, primitiveMode, primOfs),
              vertexBuffer, validGlState, drawCallCount, draws, renderState, fragmentParams,
              Caches(framebuffers, depthbuffers, shaders), drawingToDepth)
    }

    /** The renderer's invariant, on its state. */
    ghost predicate Valid()
      reads this, vtxBuffer
    {
      vtxBuffer.Length == 3 && RendererSpec.Valid(Model())
    }

    /** Construction followed by `InitializeImpl`. */
    constructor (drawEnabled: bool, forceBilinear: bool)
      ensures Model() == Initial(drawEnabled, forceBilinear)
      ensures Valid() && fresh(vtxBuffer)
    {
      regs := seq(REG_COUNT, _ => 0);
      this.drawEnabled := drawEnabled;
      this.forceBilinear := forceBilinear;
      vtxBuffer := new Vertex[3](_ => EMPTY_VERTEX);
      vtxCount := 0;
      primitiveType := PRIM_INVALID;
      primitiveMode := 0;
      primOfs := PrimOffset(0, 0);
      vertexBuffer := [];
      validGlState := 0;
      drawCallCount := 0;
      draws := [];
      renderState := ZERO_RENDER_STATE;
      fragmentParams := ZERO_FRAGMENT_PARAMS;
      framebuffers := [];
      depthbuffers := [];
      shaders := map[];
      drawingToDepth := false;
      new;
      assert vtxBuffer[..] == [EMPTY_VERTEX, EMPTY_VERTEX, EMPTY_VERTEX];
    }

    /**
     * `DoRenderPass`: each stale piece of GL state is re-sent and its bit
     * set, then the batch is drawn and the draw counted.
     */
    method DoRenderPass()
      modifies this
      ensures Model() == RendererSpec.DoRenderPass(old(Model()))
    {
      var v := validGlState;
      v := Revalidated(v, GLSTATE_VERTEX_PARAMS);
      v := Revalidated(v, GLSTATE_FRAGMENT_PARAMS);
      v := Revalidated(v, GLSTATE_PROGRAM);
      v := Revalidated(v, GLSTATE_VIEWPORT);
      v := Revalidated(v, GLSTATE_SCISSOR);
      v := Revalidated(v, GLSTATE_BLEND);
      v := Revalidated(v, GLSTATE_DEPTHTEST);
      v := Revalidated(v, GLSTATE_COLORMASK);
      v := Revalidated(v, GLSTATE_DEPTHMASK);
      v := Revalidated(v, GLSTATE_TEXTURE);
      v := Revalidated(v, GLSTATE_FRAMEBUFFER);
      validGlState, drawCallCount := v, drawCallCount + 1;
      draws := draws + [DrawCall(DrawModeFor(primitiveType), renderState.shaderHandle, vertexBuffer)];
    }

    /** `GetShaderFromCaps`: look the descriptor up, generating and caching a program on a miss. */
    method GetShaderFromCaps(caps: Caps) returns (program: Caps)
      modifies this
      ensures (Model(), program) == RendererSpec.GetShaderFromCaps(old(Model()), caps)
    {
      if caps !in shaders {
        validGlState, shaders := Invalidate(validGlState, GLSTATE_PROGRAM), shaders[caps := caps];
      }
      program := shaders[caps];
    }

    /** The program binding step of `FlushVertexBuffer`. */
    method BindShader()
      modifies this
      ensures Model() == RendererSpec.BindShader(old(Model()))
    {
      ghost var m0 := Model();
      var program := GetShaderFromCaps(renderState.shaderCaps);
      ghost var m1 := Model();
      assert (m1, program) == RendererSpec.GetShaderFromCaps(m0, m0.rs.shaderCaps);
      if Some(program) != renderState.shaderHandle {
        renderState, validGlState := renderState.(shaderHandle := Some(program)), Invalidate(validGlState, GLSTATE_PROGRAM);
      }
    }

    /**
     * `FlushVertexBuffer`: nothing on an empty batch; otherwise bind the
     * program of the current descriptor, draw, and empty the batch.
     */
    method FlushVertexBuffer()
      modifies this
      ensures Model() == RendererSpec.FlushVertexBuffer(old(Model()))
    {
      if vertexBuffer == [] {
        return;
      }
      BindShader();
      DoRenderPass();
      vertexBuffer := [];
    }
    /** `SetupBlendingFunction`: the blend constant FIX, and the fragment parameters marked stale. */
    method SetupBlendingFunction(alpha: nat)
      modifies this
      ensures Model() == RendererSpec.SetupBlendingFunction(old(Model()), alpha)
    {
      fragmentParams, validGlState := fragmentParams.(alphaFix := AlphaFix(alpha)), Invalidate(validGlState, GLSTATE_FRAGMENT_PARAMS);
    }

    /** `SetupTestFunctions`: the alpha reference and depth-test enable. */
    method SetupTestFunctions(test: nat)
      modifies this
      ensures Model() == RendererSpec.SetupTestFunctions(old(Model()), test)
    {
      fragmentParams, renderState, validGlState :=
        fragmentParams.(alphaRef := TestAlphaRef(test)), renderState.(depthTest := TestDepthEnabled(test) != 0),
        Invalidate(Invalidate(validGlState, GLSTATE_FRAGMENT_PARAMS), GLSTATE_DEPTHTEST);
    }

    /** `SetupDepthBuffer`: the depth write mask of the ZBUF format. */
    method SetupDepthBuffer(zbuf: nat)
      modifies this
      ensures Model() == RendererSpec.SetupDepthBuffer(old(Model()), zbuf)
    {
      fragmentParams, validGlState := fragmentParams.(depthMask := DepthWriteMask(zbuf)), Invalidate(validGlState, GLSTATE_FRAGMENT_PARAMS);
    }

    /** `FindFramebuffer`: a linear scan of the framebuffer cache. */
    method FindFramebufferIndex(frame: nat) returns (r: Option<nat>)
      ensures r == FindFramebuffer(framebuffers, frame)
    {
      r := FindIf(framebuffers, fb => FrameMatches(fb, frame));
    }

    /** `FindDepthbuffer`: a linear scan of the depthbuffer cache. */
    method FindDepthbufferIndex(zbuf: nat, frame: nat) returns (r: Option<nat>)
      ensures r == FindDepthbuffer(depthbuffers, zbuf, frame)
    {
      r := FindIf(depthbuffers, db => DepthMatches(db, zbuf, frame));
    }

    /** The find-or-create of the framebuffer drawn to: append a new entry only on a miss. */
    method EnsureFramebufferIn(frame: nat) returns (fb: Framebuffer)
      modifies this
      ensures (framebuffers, fb) == EnsureFramebuffer(old(framebuffers), frame)
      ensures Model() == old(Model()).(caches := old(Model()).caches.(framebuffers := framebuffers))
    {
      var found := FindFramebufferIndex(frame);
      if found.Some? {
        fb := framebuffers[found.value];
      } else {
        fb := NewFramebuffer(frame);
        framebuffers := framebuffers + [fb];
      }
    }

    /** The find-or-create of the depthbuffer drawn to. */
    method EnsureDepthbufferIn(zbuf: nat, frame: nat) returns (db: Depthbuffer)
      modifies this
      ensures (depthbuffers, db) == EnsureDepthbuffer(old(depthbuffers), zbuf, frame)
      ensures Model() == old(Model()).(caches := old(Model()).caches.(depthbuffers := depthbuffers))
    {
      var found := FindDepthbufferIndex(zbuf, frame);
      if found.Some? {
        db := depthbuffers[found.value];
      } else {
        db := NewDepthbuffer(zbuf, frame);
        depthbuffers := depthbuffers + [db];
      }
    }

    /** The state `SetupFramebuffer` sets once the buffers are known; the six state bits it touches go stale. */
    method SelectTarget(target: TargetState, fp: FragmentParams, toDepth: bool)
      modifies this
      ensures Model() == old(Model()).(rs := old(renderState).(target := target), fp := fp, drawingToDepth := toDepth,
                                       validGlState := InvalidateFramebufferBits(old(validGlState)))
    {
      fragmentParams, drawingToDepth, renderState, validGlState :=
        fp, toDepth, renderState.(target := target), InvalidateFramebufferBits(validGlState);
    }

    /** Both find-or-creates of `SetupFramebuffer`, framebuffer first. */
    method EnsureBuffersIn(frame: nat, zbuf: nat) returns (fb: Framebuffer, db: Depthbuffer)
      modifies this
      ensures (framebuffers, fb) == EnsureFramebuffer(old(framebuffers), frame)
      ensures (depthbuffers, db) == EnsureDepthbuffer(old(depthbuffers), zbuf, frame)
      ensures Model() == old(Model()).(caches := old(Model()).caches.(framebuffers := framebuffers, depthbuffers := depthbuffers))
    {
      fb := EnsureFramebufferIn(frame);
      db := EnsureDepthbufferIn(zbuf, frame);
    }

    /**
     * `SetupFramebuffer`: nothing for a zero FRAME; otherwise the masks and
     * addresses, whether FRAME's area is a cached depthbuffer, and the
     * find-or-create of the framebuffer and the depthbuffer drawn to.
     */
    method SetupFramebuffer(frame: nat, zbuf: nat, scissor: nat, test: nat)
      modifies this
      ensures Model() == RendererSpec.SetupFramebuffer(old(Model()), frame, zbuf, scissor, test)
    {
      if frame == 0 {
        return;
      }
      var toDepth := FindDepthbufferIndex(frame, frame);
      var fb, db := EnsureBuffersIn(frame, zbuf);
      SelectTarget(TargetFor(fb, db, frame, zbuf, scissor, test), FramebufferParams(fragmentParams, frame, zbuf), toDepth.Some?);
    }

    /**
     * `SetupTexture`: an untextured primitive or a zero TEX0 leaves the
     * texture binding reset; otherwise the texture is bound with its
     * filters, wraps, swizzle table and clamp bounds.
     */
    method SetupTexture(prim: nat, tex0: nat, tex1: nat, clamp: nat)
      modifies this
      ensures Model() == RendererSpec.SetupTexture(old(Model()), prim, tex0, tex1, clamp)
    {
      if tex0 == 0 || PrimTexture(prim) == 0 {
        BindTexture(ResetTexture(renderState.texture), fragmentParams, Invalidate(validGlState, GLSTATE_TEXTURE));
      } else {
        BindTexture(TextureFor(tex0, tex1, clamp, forceBilinear), TextureParams(fragmentParams, tex0, clamp),
                    InvalidateTextureBits(validGlState));
      }
    }

    /** The texture binding, fragment parameters and state bits `SetupTexture` ends with. */
    method BindTexture(texture: TextureState, fp: FragmentParams, valid: bv32)
      modifies this
      ensures Model() == old(Model()).(rs := old(renderState).(texture := texture), fp := fp, validGlState := valid)
    {
      renderState, fragmentParams, validGlState := renderState.(texture := texture), fp, valid;
    }

    /** `SetupFogColor`: the fragment parameters are marked stale. */
    method SetupFogColor()
      modifies this
      ensures Model() == RendererSpec.SetupFogColor(old(Model()))
    {
      validGlState := Invalidate(validGlState, GLSTATE_FRAGMENT_PARAMS);
    }
    // -------------------------------------------------------------
    // SetRenderingContext
    // -------------------------------------------------------------

    /** Shader selection: a different descriptor (or an invalid state) flushes and adopts it. */
    method ShaderStep(caps: Caps)
      modifies this
      ensures Model() == RendererSpec.ShaderStep(old(Model()), caps)
    {
      if !renderState.isValid || renderState.shaderCaps != caps {
        FlushVertexBuffer();
        renderState := renderState.(shaderCaps := caps);
      }
    }

    /** A change of PRIM flushes and sets blend enable from its ABE bit. */
    method BlendStep(prim: nat)
      modifies this
      ensures Model() == RendererSpec.BlendStep(old(Model()), prim)
    {
      if !renderState.isValid || renderState.regs.prim != prim {
        FlushVertexBuffer();
        renderState, validGlState := renderState.(blendEnabled := PrimAlpha(prim) != 0), Invalidate(validGlState, GLSTATE_BLEND);
      }
    }

    /** A change of ALPHA flushes and re-applies the blending function. */
    method AlphaStep(alpha: nat)
      modifies this
      ensures Model() == RendererSpec.AlphaStep(old(Model()), alpha)
    {
      if !renderState.isValid || renderState.regs.alpha != alpha {
        FlushVertexBuffer();
        SetupBlendingFunction(alpha);
      }
    }

    /** A change of TEST flushes and re-applies the test functions. */
    method TestStep(test: nat)
      modifies this
      ensures Model() == RendererSpec.TestStep(old(Model()), test)
    {
      if !renderState.isValid || renderState.regs.test != test {
        FlushVertexBuffer();
        SetupTestFunctions(test);
      }
    }

    /** A change of ZBUF or TEST flushes and re-applies the depth buffer mask. */
    method DepthStep(zbuf: nat, test: nat)
      modifies this
      ensures Model() == RendererSpec.DepthStep(old(Model()), zbuf, test)
    {
      if !renderState.isValid || renderState.regs.zbuf != zbuf || renderState.regs.test != test {
        FlushVertexBuffer();
        SetupDepthBuffer(zbuf);
      }
    }

    /** A change of FRAME, ZBUF, SCISSOR or TEST, or stale framebuffer state, flushes and re-applies the framebuffer. */
    method FramebufferStep(c: ContextRegs)
      modifies this
      ensures Model() == RendererSpec.FramebufferStep(old(Model()), c)
    {
      if !renderState.isValid || !renderState.isFramebufferStateValid || renderState.regs.frame != c.frame ||
         renderState.regs.zbuf != c.zbuf || renderState.regs.scissor != c.scissor || renderState.regs.test != c.test {
        FlushVertexBuffer();
        SetupFramebuffer(c.frame, c.zbuf, c.scissor, c.test);
      }
    }

    /** A change of TEX0, TEX1, TEXA, CLAMP or PRIM, or stale texture state, flushes and re-applies the texture. */
    method TextureStep(prim: nat, c: ContextRegs)
      modifies this
      ensures Model() == RendererSpec.TextureStep(old(Model()), prim, c)
    {
      if !renderState.isValid || !renderState.isTextureStateValid || renderState.regs.tex0 != c.tex0 ||
         renderState.regs.tex1 != c.tex1 || renderState.regs.texA != c.texA || renderState.regs.clamp != c.clamp ||
         renderState.regs.prim != prim {
        FlushVertexBuffer();
        SetupTexture(prim, c.tex0, c.tex1, c.clamp);
      }
    }

    /** A change of FOGCOL flushes and re-applies the fog colour. */
    method FogStep(fogCol: nat)
      modifies this
      ensures Model() == RendererSpec.FogStep(old(Model()), fogCol)
    {
      if !renderState.isValid || renderState.regs.fogCol != fogCol {
        FlushVertexBuffer();
        SetupFogColor();
      }
    }

    /** The eight sub-state updates of `SetRenderingContext`, in the source's order. */
    method ApplyContext(prim: nat, c: ContextRegs, caps: Caps)
      modifies this
      ensures Model() == RendererSpec.ApplyContext(old(Model()), prim, c, caps)
    {
      ShaderStep(caps);
      BlendStep(prim);
      AlphaStep(c.alpha);
      TestStep(c.test);
      DepthStep(c.zbuf, c.test);
      FramebufferStep(c);
      TextureStep(prim, c);
      FogStep(c.fogCol);
    }

    /**
     * `SetRenderingContext`: derive the shader descriptor from the context
     * PRIM selects, bring each stale sub-state up to date (flushing the
     * batch first), then record the primitive offset and the registers.
     */
    method SetRenderingContext(prim: U64)
      modifies this
      ensures Model() == RendererSpec.SetRenderingContext(old(Model()), prim)
    {
      var c := ContextRegsOf(regs, prim);
      ApplyContext(prim, c, DeriveShaderCaps(prim, c, forceBilinear));
      RecordContext(prim, c);
    }

    /** The end of `SetRenderingContext`: the offset, the validity flags and the recorded registers. */
    method RecordContext(prim: nat, c: ContextRegs)
      modifies this
      ensures Model() == RendererSpec.RecordContext(old(Model()), prim, c)
    {
      primOfs, renderState := OffsetOf(regs, prim),
        renderState.(isValid := true, isTextureStateValid := true, isFramebufferStateValid := true, regs := Tracked(prim, c));
    }
    // -------------------------------------------------------------
    // Vertex kicks and register writes
    // -------------------------------------------------------------

    /**
     * The `switch` that ends a primitive: the countdown for the next one,
     * and for strips and fans the `memcpy` shifts that keep the vertices
     * the next primitive shares.
     */
    method ReseedWindow()
      requires vtxBuffer.Length == 3 && primitiveType < 8 && vtxCount == 0
      modifies this, vtxBuffer
      ensures Window(vtxBuffer[..], vtxCount) == Reseed(old(primitiveType), old(vtxBuffer[..]))
      ensures Model() == old(Model()).(front := old(Model()).front.(vtx := vtxBuffer[..], vtxCount := vtxCount))
    {
      if primitiveType == PRIM_POINT {
        vtxCount := 1;
      } else if primitiveType == PRIM_LINE {
        vtxCount := 2;
      } else if primitiveType == PRIM_LINESTRIP {
        vtxBuffer[1] := vtxBuffer[0];
        vtxCount := 1;
      } else if primitiveType == PRIM_TRIANGLE {
        vtxCount := 3;
      } else if primitiveType == PRIM_TRIANGLESTRIP {
        vtxBuffer[2] := vtxBuffer[1];
        vtxBuffer[1] := vtxBuffer[0];
        vtxCount := 1;
      } else if primitiveType == PRIM_TRIANGLEFAN {
        vtxBuffer[1] := vtxBuffer[0];
        vtxCount := 1;
      } else if primitiveType == PRIM_SPRITE {
        vtxCount := 2;
      }
    }

    /** `Prim_Point`, `Prim_Line`, `Prim_Triangle` or `Prim_Sprite`: the primitive's vertices join the batch. */
    method AppendPrimitive(primMode: nat)
      requires vtxBuffer.Length == 3
      modifies this
      ensures vertexBuffer == old(vertexBuffer) + PrimitiveVertices(primitiveType, vtxBuffer[..], primOfs, primMode)
      ensures Model() == old(Model()).(batch := vertexBuffer)
    {
      vertexBuffer := vertexBuffer + PrimitiveVertices(primitiveType, vtxBuffer[..], primOfs, primMode);
    }

    /** A drawing kick's completed primitive: set up the rendering context, then append the primitive. */
    method DrawPrimitive(primMode: U64)
      requires vtxBuffer.Length == 3 && WindowOk(Model())
      modifies this
      ensures Model() == RendererSpec.DrawPrimitive(old(Model()), primMode)
    {
      SetRenderingContext(primMode);
      AppendPrimitive(primMode);
    }

    /**
     * The end of a primitive in `VertexKick`: select the primitive
     * attributes; a drawing kick sets up the rendering context and
     * appends the primitive; then the window is reseeded.
     */
    method CompletePrimitive(drawing: bool)
      requires vtxBuffer.Length == 3 && WindowOk(Model()) && vtxCount == 0
      modifies this, vtxBuffer
      ensures Model() == RendererSpec.CompletePrimitive(old(Model()), drawing)
    {
      var mode := PrimitiveModeOf(regs);
      primitiveMode := mode;
      if drawing {
        DrawPrimitive(mode);
      }
      ReseedWindow();
    }

    /** The vertex goes into slot `m_nVtxCount - 1` and the countdown drops. */
    method StoreVertex(v: Vertex)
      requires vtxBuffer.Length == 3 && 0 < vtxCount <= 3
      modifies this, vtxBuffer
      ensures Window(vtxBuffer[..], vtxCount) == Store(Window(old(vtxBuffer[..]), old(vtxCount)), v)
      ensures Model() == old(Model()).(front := old(Model()).front.(vtx := vtxBuffer[..], vtxCount := vtxCount))
    {
      vtxBuffer[vtxCount - 1] := v;
      vtxCount := vtxCount - 1;
    }

    /**
     * `VertexKick`: ignored when the countdown is zero; otherwise the
     * vertex goes into slot `m_nVtxCount - 1`, the countdown drops, and
     * reaching zero completes the primitive.
     */
    method VertexKick(reg: nat, value: U64)
      requires vtxBuffer.Length == 3 && WindowOk(Model())
      modifies this, vtxBuffer
      ensures Model() == RendererSpec.VertexKick(old(Model()), reg, value)
    {
      if vtxCount == 0 {
        return;
      }
      var drawing := IsDrawingKick(reg, drawEnabled);
      StoreVertex(KickVertex(regs, value, reg == REG_XYZF2 || reg == REG_XYZF3));
      if vtxCount == 0 {
        CompletePrimitive(drawing);
      }
    }

    /** The PRIM case of `WriteRegisterImpl`: flush on a new primitive type, restart the countdown. */
    method SetPrimitiveType(t: nat)
      requires t < 8
      modifies this
      ensures Model() == RendererSpec.SetPrimitiveType(old(Model()), t)
    {
      if t != primitiveType {
        FlushVertexBuffer();
      }
      primitiveType, vtxCount := t, InitialCount(t, vtxCount);
    }

    /**
     * `WriteRegisterImpl`: store the value; a PRIM write flushes when the
     * primitive type changes and restarts the countdown; a position
     * register kicks a vertex. The invariant is kept.
     */
    method WriteRegister(reg: nat, data: U64)
      requires Valid() && reg < REG_COUNT
      modifies this, vtxBuffer
      ensures Model() == RendererSpec.WriteRegister(old(Model()), reg, data)
      ensures Valid()
    {
      ghost var m0 := Model();
      regs := regs[reg := data];
      if reg == REG_PRIM {
        SetPrimitiveType(data % 8);
      } else if IsKickRegister(reg) {
        VertexKick(reg, data);
      }
      WriteRegisterKeepsValid(m0, reg, data);
    }

    // -------------------------------------------------------------
    // Reset, preferences, Flip, transfers
    // -------------------------------------------------------------

    /** `ResetImpl`: caches and batch cleared, everything invalid, no primitive type. */
    method Reset(forceBilinear: bool)
      modifies this
      ensures Model() == RendererSpec.Reset(old(Model()), forceBilinear)
    {
      NotifyPreferencesChanged(forceBilinear);
      ClearDrawState();
      primitiveType := PRIM_INVALID;
    }

    /** The part of `ResetImpl` past the caches: empty batch, invalid render and GL state. */
    method ClearDrawState()
      modifies this
      ensures Model() == old(Model()).(batch := [], rs := old(renderState).(isValid := false), validGlState := 0,
                                       drawingToDepth := false)
    {
      vertexBuffer, renderState, validGlState, drawingToDepth := [], renderState.(isValid := false), 0, false;
    }

    /** `NotifyPreferencesChangedImpl`: new preferences, empty buffer caches. */
    method NotifyPreferencesChanged(forceBilinear: bool)
      modifies this
      ensures Model() == RendererSpec.NotifyPreferencesChanged(old(Model()), forceBilinear)
    {
      this.forceBilinear, framebuffers, depthbuffers := forceBilinear, [], [];
    }

    /**
     * The state part of `FlipImpl`: flush, invalidate everything, then
     * find the displayed framebuffer (creating it for a non-zero width).
     * `bitDepth` stands for `GetFramebufferBitDepth`.
     */
    method Flip(pmode: nat, dispFb1: nat, dispFb2: nat, bitDepth: nat -> nat) returns (shown: Option<Framebuffer>)
      modifies this
      ensures (Model(), shown) == RendererSpec.Flip(old(Model()), pmode, dispFb1, dispFb2, bitDepth)
    {
      FlushVertexBuffer();
      renderState, validGlState := renderState.(isValid := false), 0;
      var fb := DisplayedFb(pmode, dispFb1, dispFb2);
      var found := FindIf(framebuffers, f => DisplayMatches(f, fb, bitDepth));
      if found.Some? {
        shown := Some(framebuffers[found.value]);
      } else if DispFbBufWidth(fb) != 0 {
        var created := Framebuffer(DispFbBufPtr(fb), DispFbBufWidth(fb), FRAMEBUFFER_HEIGHT, DispFbPsm(fb));
        framebuffers := framebuffers + [created];
        shown := Some(created);
      } else {
        shown := None;
      }
    }

    /** The state part of `ProcessHostToLocalTransfer`. */
    method HostToLocal()
      modifies this
      ensures Model() == RendererSpec.HostToLocal(old(Model()))
    {
      FlushVertexBuffer();
      renderState := renderState.(isTextureStateValid := false, isFramebufferStateValid := false);
      validGlState := Invalidate(Invalidate(validGlState, GLSTATE_PROGRAM), GLSTATE_TEXTURE);
    }

    /** The state part of `ProcessClutTransfer`. */
    method ClutTransfer()
      modifies this
      ensures Model() == RendererSpec.ClutTransfer(old(Model()))
    {
      FlushVertexBuffer();
      renderState := renderState.(isTextureStateValid := false);
      validGlState := Invalidate(Invalidate(validGlState, GLSTATE_PROGRAM), GLSTATE_TEXTURE);
    }

    /** The state part of `ProcessLocalToLocalTransfer`. */
    method LocalToLocal()
      modifies this
      ensures Model() == RendererSpec.LocalToLocal(old(Model()))
    {
      var blt := regs[REG_BITBLTBUF];
      var src := FindIf(framebuffers, fb => AreaMatches(fb, BltSrcPtr(blt), BltSrcWidth(blt)));
      var dst := FindIf(framebuffers, fb => AreaMatches(fb, BltDstPtr(blt), BltDstWidth(blt)));
      if src.Some? && dst.Some? {
        FlushVertexBuffer();
        renderState := renderState.(isValid := false);
      }
    }

    /** The state part of `ProcessLocalToHostTransfer`. */
    method LocalToHost()
      modifies this
      ensures Model() == RendererSpec.LocalToHost(old(Model()))
    {
      if !LocalToHostSupported(regs) {
        return;
      }
      var found := FindIf(framebuffers, (fb: Framebuffer) => fb.psm == PSMCT32 && fb.basePtr == 0);
      if found.None? {
        return;
      }
      FlushVertexBuffer();
      renderState := renderState.(isValid := false);
    }
  }
}
