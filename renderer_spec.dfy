/**
 * The renderer's state as a value (`Machine`) and each operation of
 * `CGSH_OpenGL` as a function from the state before to the state after.
 * GL calls are opaque; the only one whose effect is recorded is the draw
 * of `DoRenderPass`, kept as a log of draw calls.
 */
module RendererSpec {
  import opened GsRegs
  import opened Wrappers
  import opened ShaderCaps
  import opened CapsDerivation
  import opened Transfer
  import opened ResourceCaches
  import opened RenderState
  import opened GlState
  import opened Primitives
  import opened Assembler
  import Presentation

  /** The GL primitive mode `DoRenderPass` draws with. */
  datatype DrawMode = DrawNone | Points | Lines | Triangles

  /** One `glDrawArrays`: the mode, the program bound, and the vertices uploaded. */
  datatype DrawCall = DrawCall(mode: DrawMode, program: Option<Caps>, vertices: seq<PrimVertex>)

  /**
   * The front end: the register file, the preferences, and the vertex
   * assembler's state (`m_VtxBuffer`, `m_nVtxCount`, the primitive type and
   * attributes, and the primitive offset).
   */
  datatype FrontEnd = FrontEnd(
    regs: RegFile, drawEnabled: bool, forceBilinear: bool,
    vtx: seq<Vertex>, vtxCount: nat, primitiveType: nat, primitiveMode: nat, primOfs: PrimOffset)

  /**
   * The caches: framebuffers, depthbuffers, and the shader programs, each
   * program stood for by the descriptor it was generated from.
   */
  datatype Caches = Caches(framebuffers: seq<Framebuffer>, depthbuffers: seq<Depthbuffer>, shaders: map<Caps, Caps>)

  /**
   * The renderer's state. `batch` is `m_vertexBuffer`, `validGlState` is
   * `m_validGlState`, and `draws` logs every draw issued.
   */
  datatype Machine = Machine(
    front: FrontEnd,
    batch: seq<PrimVertex>, validGlState: bv32, drawCallCount: nat, draws: seq<DrawCall>,
    rs: RenderState, fp: FragmentParams, caches: Caches, drawingToDepth: bool)

  /** The kick window has its three slots, a countdown of at most 3, and a known primitive type. */
  predicate WindowOk(m: Machine)
  {
    |m.front.vtx| == 3 && m.front.vtxCount <= 3 && m.front.primitiveType < 8
  }

  /** Every shader cache entry holds the program generated from the descriptor it is cached under. */
  predicate ShadersKeyed(shaders: map<Caps, Caps>)
  {
    forall k :: k in shaders ==> shaders[k] == k
  }

  /**
   * The invariant the renderer keeps: a well-formed window, a pending
   * batch only under a valid render state (the assertion of
   * `FlushVertexBuffer`), caches free of duplicates, and a keyed shader
   * cache.
   */
  predicate Valid(m: Machine)
  {
    WindowOk(m) &&
    (|m.batch| > 0 ==> m.rs.isValid) &&
    DistinctFramebuffers(m.caches.framebuffers) && DistinctDepthbuffers(m.caches.depthbuffers) &&
    ShadersKeyed(m.caches.shaders)
  }

  /** The parts of the state `Valid` speaks of (the drawing offset is not one of them). */
  predicate SameValidParts(a: Machine, b: Machine)
  {
    b.front == a.front.(primOfs := b.front.primOfs) && a.batch == b.batch && a.rs.isValid == b.rs.isValid && a.caches == b.caches
  }

  /** `Valid` depends on those parts only. */
  lemma ValidFromParts(a: Machine, b: Machine)
    ensures Valid(a) && SameValidParts(a, b) ==> Valid(b)
  {
  }

  /**
   * From `a` to `b` the pending batch was either left alone, or drawn by
   * exactly one new draw call and emptied.
   */
  predicate BatchDrawn(a: Machine, b: Machine)
  {
    (b.batch == a.batch && b.draws == a.draws) ||
    (a.batch != [] && b.batch == [] && |b.draws| == |a.draws| + 1 &&
     b.draws[..|a.draws|] == a.draws && b.draws[|a.draws|].vertices == a.batch)
  }

  /** Two steps that each draw the pending batch at most once draw it at most once together. */
  lemma BatchDrawnTrans(a: Machine, b: Machine, c: Machine)
    requires BatchDrawn(a, b) && BatchDrawn(b, c)
    ensures BatchDrawn(a, c)
  {
  }

  /**
   * The state after construction and `InitializeImpl`: a zeroed render
   * state and window, nothing cached or drawn, and the primitive type
   * `ResetImpl` starts from.
   */
  function Initial(drawEnabled: bool, forceBilinear: bool): (m: Machine)
    ensures Valid(m) && m.batch == [] && m.draws == [] && !m.rs.isValid && m.validGlState == 0
  {
    Machine(FrontEnd(seq(REG_COUNT, _ => 0), drawEnabled, forceBilinear,
                     [EMPTY_VERTEX, EMPTY_VERTEX, EMPTY_VERTEX], 0, PRIM_INVALID, 0, PrimOffset(0, 0)),
            [], 0, 0, [],
            ZERO_RENDER_STATE, ZERO_FRAGMENT_PARAMS,
            Caches([], [], map[]), false)
  }

  // ---------------------------------------------------------------
  // Shader cache, FlushVertexBuffer, DoRenderPass
  // ---------------------------------------------------------------

  /**
   * `GetShaderFromCaps`: the program cached under the descriptor, generating
   * one (and marking the program binding stale) on a miss. The cache is
   * keyed by the whole descriptor, which `PackInjective` shows is the same
   * as keying it by the full 64-bit value; see `TruncatedKey.CachedProgramAsWritten` for
   * the truncated key of the source.
   */
  function GetShaderFromCaps(m: Machine, caps: Caps): (r: (Machine, Caps))
    ensures caps in r.0.caches.shaders && r.1 == r.0.caches.shaders[caps]
    ensures caps in m.caches.shaders ==> r.0 == m
    ensures caps !in m.caches.shaders ==>
              r.1 == caps && r.0.caches.shaders == m.caches.shaders[caps := caps] &&
              r.0.validGlState == Invalidate(m.validGlState, GLSTATE_PROGRAM)
    ensures r.0 == m.(caches := r.0.caches, validGlState := r.0.validGlState)
    ensures r.0.caches == m.caches.(shaders := r.0.caches.shaders)
    ensures ShadersKeyed(m.caches.shaders) ==> ShadersKeyed(r.0.caches.shaders)
  {
    if caps in m.caches.shaders then (m, m.caches.shaders[caps])
    else (m.(caches := m.caches.(shaders := m.caches.shaders[caps := caps]),
             validGlState := Invalidate(m.validGlState, GLSTATE_PROGRAM)), caps)
  }

  /** The GL mode a primitive type is drawn with. */
  function DrawModeFor(primType: nat): (mode: DrawMode)
    ensures mode == Points <==> primType == PRIM_POINT
    ensures mode == Lines <==> primType in {PRIM_LINE, PRIM_LINESTRIP}
    ensures mode == Triangles <==> primType in {PRIM_TRIANGLE, PRIM_TRIANGLESTRIP, PRIM_TRIANGLEFAN, PRIM_SPRITE}
  {
    if primType == PRIM_POINT then Points
    else if primType == PRIM_LINE || primType == PRIM_LINESTRIP then Lines
    else if primType in {PRIM_TRIANGLE, PRIM_TRIANGLESTRIP, PRIM_TRIANGLEFAN, PRIM_SPRITE} then Triangles
    else DrawNone
  }

  /**
   * `DoRenderPass`: every stale piece of GL state is re-sent, so all state
   * bits end up set, and one draw of the batch is issued.
   */
  function DoRenderPass(m: Machine): (r: Machine)
    ensures r.drawCallCount == m.drawCallCount + 1
    ensures r.draws == m.draws + [DrawCall(DrawModeFor(m.front.primitiveType), m.rs.shaderHandle, m.batch)]
    ensures r.validGlState == ValidateAll(m.validGlState)
    ensures r.(validGlState := m.validGlState, drawCallCount := m.drawCallCount, draws := m.draws) == m
  {
    m.(validGlState := ValidateAll(m.validGlState), drawCallCount := m.drawCallCount + 1,
       draws := m.draws + [DrawCall(DrawModeFor(m.front.primitiveType), m.rs.shaderHandle, m.batch)])
  }

  /** The program binding step of `FlushVertexBuffer`. */
  function BindShader(m: Machine): (r: Machine)
    ensures m.rs.shaderCaps in r.caches.shaders && r.rs.shaderHandle == Some(r.caches.shaders[m.rs.shaderCaps])
    ensures r.rs.shaderHandle == Some(GetShaderFromCaps(m, m.rs.shaderCaps).1)
    ensures ShadersKeyed(m.caches.shaders) ==> ShadersKeyed(r.caches.shaders)
    ensures r == m.(rs := r.rs, caches := r.caches, validGlState := r.validGlState)
    ensures r.caches == m.caches.(shaders := r.caches.shaders)
    ensures r.rs == m.rs.(shaderHandle := r.rs.shaderHandle)
  {
    var g := GetShaderFromCaps(m, m.rs.shaderCaps);
    var m1 := g.0;
    var program := g.1;
    if Some(program) != m1.rs.shaderHandle then
      m1.(rs := m1.rs.(shaderHandle := Some(program)), validGlState := Invalidate(m1.validGlState, GLSTATE_PROGRAM))
    else m1
  }

  /**
   * `FlushVertexBuffer`: nothing on an empty batch; otherwise exactly one
   * draw of the whole batch with the program cached for the current
   * descriptor, after which the batch is empty and every state bit is set.
   */
  function FlushVertexBuffer(m: Machine): (r: Machine)
    ensures m.batch == [] ==> r == m
    ensures r.batch == []
    ensures r.rs == m.rs.(shaderHandle := r.rs.shaderHandle)
    ensures r.front == m.front
    ensures BatchDrawn(m, r)
  {
    if m.batch == [] then m
    else
      var m1 := BindShader(m);
      var m2 := DoRenderPass(m1);
      assert m2.draws[..|m.draws|] == m.draws;
      m2.(batch := [])
  }

  /**
   * The draw a flush of a non-empty batch issues: the whole batch, in the
   * mode of the primitive type, with the program cached for the current
   * descriptor, after which every state bit is set.
   */
  lemma FlushDrawsBatch(m: Machine)
    requires m.batch != []
    ensures var r := FlushVertexBuffer(m);
            r.drawCallCount == m.drawCallCount + 1 &&
            |r.draws| == |m.draws| + 1 && r.draws[..|m.draws|] == m.draws &&
            r.draws[|m.draws|].vertices == m.batch &&
            r.draws[|m.draws|].mode == DrawModeFor(m.front.primitiveType) &&
            r.draws[|m.draws|].program == Some(GetShaderFromCaps(m, m.rs.shaderCaps).1) &&
            r.validGlState == ValidateAll(r.validGlState)
  {
    ValidateAllIdempotent(BindShader(m).validGlState);
  }

  /** A flush keeps the invariant: the batch empties and the cache stays keyed. */
  lemma FlushKeepsValid(m: Machine)
    ensures Valid(m) ==> Valid(FlushVertexBuffer(m))
  {
  }

  lemma ValidateAllIdempotent(v: bv32)
    ensures ValidateAll(ValidateAll(v)) == ValidateAll(v)
  {}

  /** Flushing twice is flushing once. */
  lemma FlushIdempotent(m: Machine)
    ensures FlushVertexBuffer(FlushVertexBuffer(m)) == FlushVertexBuffer(m)
  {}

  /** With a keyed cache, the program found for a descriptor is the one generated from it. */
  lemma CachedProgramIsCaps(m: Machine, caps: Caps)
    requires ShadersKeyed(m.caches.shaders)
    ensures GetShaderFromCaps(m, caps).1 == caps
  {
  }

  /** Every flush draws with the program generated from the current descriptor. */
  lemma FlushDrawsWithCurrentProgram(m: Machine)
    requires Valid(m) && m.batch != []
    ensures var r := FlushVertexBuffer(m);
            |r.draws| == |m.draws| + 1 && r.draws[|m.draws|].program == Some(m.rs.shaderCaps)
  {
    FlushDrawsBatch(m);
    CachedProgramIsCaps(m, m.rs.shaderCaps);
  }

  // ---------------------------------------------------------------
  // Setup* functions
  // ---------------------------------------------------------------

  /** `SetupBlendingFunction`: the blend constant FIX goes to the fragment parameters. */
  function SetupBlendingFunction(m: Machine, alpha: nat): (r: Machine)
    ensures SameValidParts(m, r)
    ensures r.front == m.front && r.batch == m.batch && r.draws == m.draws
    ensures r.fp == m.fp.(alphaFix := AlphaFix(alpha))
    ensures r == m.(fp := r.fp, validGlState := Invalidate(m.validGlState, GLSTATE_FRAGMENT_PARAMS))
  {
    m.(fp := m.fp.(alphaFix := AlphaFix(alpha)), validGlState := Invalidate(m.validGlState, GLSTATE_FRAGMENT_PARAMS))
  }

  /** `SetupTestFunctions`: the alpha reference and whether depth testing is on. */
  function SetupTestFunctions(m: Machine, test: nat): (r: Machine)
    ensures SameValidParts(m, r)
    ensures r.front == m.front && r.batch == m.batch && r.draws == m.draws
    ensures r.fp == m.fp.(alphaRef := TestAlphaRef(test))
    ensures r.rs == m.rs.(depthTest := TestDepthEnabled(test) != 0)
    ensures r == m.(fp := r.fp, rs := r.rs,
                    validGlState := Invalidate(Invalidate(m.validGlState, GLSTATE_FRAGMENT_PARAMS), GLSTATE_DEPTHTEST))
  {
    m.(fp := m.fp.(alphaRef := TestAlphaRef(test)), rs := m.rs.(depthTest := TestDepthEnabled(test) != 0),
       validGlState := Invalidate(Invalidate(m.validGlState, GLSTATE_FRAGMENT_PARAMS), GLSTATE_DEPTHTEST))
  }

  /** `SetupDepthBuffer`: the depth mask of the ZBUF format. */
  function SetupDepthBuffer(m: Machine, zbuf: nat): (r: Machine)
    ensures SameValidParts(m, r)
    ensures r.front == m.front && r.batch == m.batch && r.draws == m.draws
    ensures r.fp == m.fp.(depthMask := DepthWriteMask(zbuf))
    ensures r == m.(fp := r.fp, validGlState := Invalidate(m.validGlState, GLSTATE_FRAGMENT_PARAMS))
  {
    m.(fp := m.fp.(depthMask := DepthWriteMask(zbuf)), validGlState := Invalidate(m.validGlState, GLSTATE_FRAGMENT_PARAMS))
  }

  /** The six state bits `SetupFramebuffer` marks stale. */
  const FRAMEBUFFER_SETUP_BITS: bv32 :=
    GLSTATE_COLORMASK | GLSTATE_FRAGMENT_PARAMS | GLSTATE_FRAMEBUFFER |
    GLSTATE_VIEWPORT | GLSTATE_VERTEX_PARAMS | GLSTATE_SCISSOR

  /** `SetupFramebuffer`'s six `m_validGlState &= ~...` statements. */
  function InvalidateFramebufferBits(v: bv32): (r: bv32)
    ensures r & FRAMEBUFFER_SETUP_BITS == 0
    ensures r | FRAMEBUFFER_SETUP_BITS == v | FRAMEBUFFER_SETUP_BITS
  {
    Invalidate(Invalidate(Invalidate(Invalidate(Invalidate(Invalidate(v,
      GLSTATE_COLORMASK), GLSTATE_FRAGMENT_PARAMS), GLSTATE_FRAMEBUFFER),
      GLSTATE_VIEWPORT), GLSTATE_VERTEX_PARAMS), GLSTATE_SCISSOR)
  }

  /** The fragment parameters `SetupFramebuffer` writes. */
  function FramebufferParams(fp: FragmentParams, frame: nat, zbuf: nat): (r: FragmentParams)
    ensures r == fp.(colorMask := r.colorMask, frameBufPtr := r.frameBufPtr, frameBufWidth := r.frameBufWidth,
                     depthBufPtr := r.depthBufPtr, depthBufWidth := r.depthBufWidth)
    ensures r.colorMask == FragmentColorMask(frame)
    ensures r.frameBufPtr == FrameBasePtr(frame) && r.depthBufPtr == ZbufBasePtr(zbuf)
    ensures r.frameBufWidth == FrameWidth(frame) && r.depthBufWidth == FrameWidth(frame)
  {
    fp.(colorMask := FragmentColorMask(frame), frameBufPtr := FrameBasePtr(frame), frameBufWidth := FrameWidth(frame),
        depthBufPtr := ZbufBasePtr(zbuf), depthBufWidth := FrameWidth(frame))
  }

  /** The render target `SetupFramebuffer` selects. */
  function TargetFor(fb: Framebuffer, db: Depthbuffer, frame: nat, zbuf: nat, scissor: nat, test: nat): (t: TargetState)
    ensures t.framebuffer == Some(fb) && t.depthbuffer == Some(db)
    ensures t.viewportWidth == fb.width && t.viewportHeight == fb.height
    ensures t.frameSwizzle == SwizzleTableFor(FramePsm(frame)) && t.depthSwizzle == SwizzleTableFor(ZbufPsm(zbuf))
    ensures t.scissor == ScissorBox(scissor) && t.colorMask == ColorWriteMask(frame, test)
  {
    TargetState(Some(fb), Some(db), SwizzleTableFor(FramePsm(frame)), SwizzleTableFor(ZbufPsm(zbuf)),
                fb.width, fb.height, ScissorBox(scissor), ColorWriteMask(frame, test))
  }

  /**
   * `SetupFramebuffer`: nothing for a zero FRAME; otherwise the masks and
   * buffer addresses, the "drawing into a former depth buffer" flag, and
   * find-or-create of the framebuffer and depthbuffer drawn to.
   */
  function SetupFramebuffer(m: Machine, frame: nat, zbuf: nat, scissor: nat, test: nat): (r: Machine)
    ensures r.front == m.front && r.batch == m.batch && r.draws == m.draws
    ensures frame == 0 ==> r == m
    ensures frame != 0 ==>
              r.drawingToDepth == FindDepthbuffer(m.caches.depthbuffers, frame, frame).Some? &&
              r.caches.framebuffers == EnsureFramebuffer(m.caches.framebuffers, frame).0 &&
              r.caches.depthbuffers == EnsureDepthbuffer(m.caches.depthbuffers, zbuf, frame).0 &&
              r.rs == m.rs.(target := TargetFor(EnsureFramebuffer(m.caches.framebuffers, frame).1,
                                                EnsureDepthbuffer(m.caches.depthbuffers, zbuf, frame).1,
                                                frame, zbuf, scissor, test)) &&
              r.fp == FramebufferParams(m.fp, frame, zbuf) &&
              r.validGlState == InvalidateFramebufferBits(m.validGlState)
    ensures r == m.(rs := r.rs, fp := r.fp, caches := r.caches, drawingToDepth := r.drawingToDepth,
                    validGlState := r.validGlState)
    ensures r.caches.shaders == m.caches.shaders
  {
    if frame == 0 then m
    else
      var (fbs, fb) := EnsureFramebuffer(m.caches.framebuffers, frame);
      var (dbs, db) := EnsureDepthbuffer(m.caches.depthbuffers, zbuf, frame);
      m.(fp := FramebufferParams(m.fp, frame, zbuf),
         drawingToDepth := FindDepthbuffer(m.caches.depthbuffers, frame, frame).Some?,
         caches := m.caches.(framebuffers := fbs, depthbuffers := dbs),
         rs := m.rs.(target := TargetFor(fb, db, frame, zbuf, scissor, test)),
         validGlState := InvalidateFramebufferBits(m.validGlState))
  }

  /** The find-or-create of `SetupFramebuffer` keeps both caches free of duplicates. */
  lemma SetupFramebufferKeepsValid(m: Machine, frame: nat, zbuf: nat, scissor: nat, test: nat)
    requires Valid(m)
    ensures Valid(SetupFramebuffer(m, frame, zbuf, scissor, test))
  {
    EnsureFramebufferKeepsDistinct(m.caches.framebuffers, frame);
    EnsureDepthbufferKeepsDistinct(m.caches.depthbuffers, zbuf, frame);
  }

  /** The three state bits a textured `SetupTexture` marks stale. */
  const TEXTURE_SETUP_BITS: bv32 := GLSTATE_TEXTURE | GLSTATE_VERTEX_PARAMS | GLSTATE_FRAGMENT_PARAMS

  /** `SetupTexture`'s three `m_validGlState &= ~...` statements for a textured primitive. */
  function InvalidateTextureBits(v: bv32): (r: bv32)
    ensures r & TEXTURE_SETUP_BITS == 0
    ensures r | TEXTURE_SETUP_BITS == v | TEXTURE_SETUP_BITS
  {
    Invalidate(Invalidate(Invalidate(v, GLSTATE_TEXTURE), GLSTATE_VERTEX_PARAMS), GLSTATE_FRAGMENT_PARAMS)
  }

  /** The texture state `SetupTexture` starts from: no texture, NEAREST, clamp-to-edge. */
  function ResetTexture(t: TextureState): (r: TextureState)
    ensures r.texture0.None? && r.texture1.None? && r.swizzle == t.swizzle
    ensures r.minFilter == Nearest && r.magFilter == Nearest && r.wrapS == ClampToEdge && r.wrapT == ClampToEdge
  {
    TextureState(None, None, Nearest, Nearest, ClampToEdge, ClampToEdge, t.swizzle)
  }

  /** The texture state of a textured primitive. */
  function TextureFor(tex0: nat, tex1: nat, clamp: nat, forceBilinear: bool): (t: TextureState)
    ensures t.texture0 == Some(tex0)
    ensures t.texture1.Some? <==> IsPsmIdTex(Tex0Psm(tex0))
    ensures (t.minFilter, t.magFilter) == TextureFilters(tex0, tex1, forceBilinear)
    ensures t.wrapS == NativeWrap(ClampWms(clamp)) && t.wrapT == NativeWrap(ClampWmt(clamp))
    ensures t.swizzle == SwizzleTableFor(Tex0Psm(tex0))
  {
    var psm := Tex0Psm(tex0);
    var (minF, magF) := TextureFilters(tex0, tex1, forceBilinear);
    TextureState(Some(tex0), if IsPsmIdTex(psm) then Some(tex0) else None, minF, magF,
                 NativeWrap(ClampWms(clamp)), NativeWrap(ClampWmt(clamp)), SwizzleTableFor(psm))
  }

  /** The fragment parameters `SetupTexture` writes. */
  function TextureParams(fp: FragmentParams, tex0: nat, clamp: nat): (r: FragmentParams)
    ensures r == fp.(clampS := r.clampS, clampT := r.clampT, textureBufPtr := r.textureBufPtr,
                     textureBufWidth := r.textureBufWidth, textureCsa := r.textureCsa)
    ensures (r.clampS, r.clampT) == ClampBounds(clamp)
    ensures r.textureBufPtr == Tex0BufPtr(tex0) && r.textureBufWidth == Tex0BufWidth(tex0)
    ensures r.textureCsa == Tex0Csa(tex0) % 0x10
  {
    var (cs, ct) := ClampBounds(clamp);
    fp.(clampS := cs, clampT := ct, textureBufPtr := Tex0BufPtr(tex0), textureBufWidth := Tex0BufWidth(tex0),
        textureCsa := Tex0Csa(tex0) % 0x10)
  }

  /**
   * `SetupTexture`: the texture binding is reset first; an untextured
   * primitive or a zero TEX0 stops there, otherwise the texture, filters,
   * wraps, swizzle table and shader clamp bounds are set, which replaces
   * every part of the reset binding.
   */
  function SetupTexture(m: Machine, prim: nat, tex0: nat, tex1: nat, clamp: nat): (r: Machine)
    ensures SameValidParts(m, r)
    ensures r.front == m.front && r.batch == m.batch && r.draws == m.draws
    ensures r == m.(rs := m.rs.(texture := r.rs.texture), fp := r.fp, validGlState := r.validGlState)
    ensures tex0 == 0 || PrimTexture(prim) == 0 ==>
              r.rs.texture == ResetTexture(m.rs.texture) && r.fp == m.fp &&
              r.validGlState == Invalidate(m.validGlState, GLSTATE_TEXTURE)
    ensures tex0 != 0 && PrimTexture(prim) != 0 ==>
              r.rs.texture == TextureFor(tex0, tex1, clamp, m.front.forceBilinear) &&
              r.fp == TextureParams(m.fp, tex0, clamp) &&
              r.validGlState == InvalidateTextureBits(m.validGlState)
  {
    if tex0 == 0 || PrimTexture(prim) == 0 then
      m.(rs := m.rs.(texture := ResetTexture(m.rs.texture)), validGlState := Invalidate(m.validGlState, GLSTATE_TEXTURE))
    else
      m.(rs := m.rs.(texture := TextureFor(tex0, tex1, clamp, m.front.forceBilinear)),
         fp := TextureParams(m.fp, tex0, clamp),
         validGlState := InvalidateTextureBits(m.validGlState))
  }

  /** `SetupFogColor`: the colour itself is floating point; only the stale bit is modelled. */
  function SetupFogColor(m: Machine): (r: Machine)
    ensures SameValidParts(m, r)
    ensures r.front == m.front && r.batch == m.batch && r.draws == m.draws
    ensures r == m.(validGlState := Invalidate(m.validGlState, GLSTATE_FRAGMENT_PARAMS))
  {
    var r := m.(validGlState := Invalidate(m.validGlState, GLSTATE_FRAGMENT_PARAMS));
    ValidFromParts(m, r);
    r
  }

  // ---------------------------------------------------------------
  // SetRenderingContext
  // ---------------------------------------------------------------

  /** The registers of the drawing context PRIM selects (`_1 + nContext`). */
  function ContextRegsOf(regs: RegFile, prim: nat): (r: ContextRegs)
    ensures PrimContext(prim) == 0 ==> r.test == regs[REG_TEST_1] && r.frame == regs[REG_FRAME_1] && r.zbuf == regs[REG_ZBUF_1]
    ensures PrimContext(prim) == 1 ==> r.test == regs[REG_TEST_1 + 1] && r.frame == regs[REG_FRAME_1 + 1] && r.zbuf == regs[REG_ZBUF_1 + 1]
    ensures r.texA == regs[REG_TEXA] && r.fogCol == regs[REG_FOGCOL]
  {
    var c := PrimContext(prim);
    ContextRegs(regs[REG_TEST_1 + c], regs[REG_FRAME_1 + c], regs[REG_ALPHA_1 + c], regs[REG_ZBUF_1 + c],
                regs[REG_TEX0_1 + c], regs[REG_TEX1_1 + c], regs[REG_TEXA], regs[REG_CLAMP_1 + c],
                regs[REG_FOGCOL], regs[REG_SCISSOR_1 + c])
  }

  /** The registers `SetRenderingContext` records once it is done. */
  function Tracked(prim: nat, c: ContextRegs): TrackedRegs
  {
    TrackedRegs(prim, c.frame, c.test, c.alpha, c.zbuf, c.scissor, c.tex0, c.tex1, c.texA, c.clamp, c.fogCol)
  }

  /** The shader descriptor differs from the adopted one (or the state is invalid). */
  predicate ShaderChanged(m: Machine, caps: Caps)
  {
    !m.rs.isValid || m.rs.shaderCaps != caps
  }

  /** PRIM differs from the recorded one. */
  predicate BlendChanged(m: Machine, prim: nat)
  {
    !m.rs.isValid || m.rs.regs.prim != prim
  }

  /** ALPHA differs from the recorded one. */
  predicate AlphaChanged(m: Machine, alpha: nat)
  {
    !m.rs.isValid || m.rs.regs.alpha != alpha
  }

  /** TEST differs from the recorded one. */
  predicate TestChanged(m: Machine, test: nat)
  {
    !m.rs.isValid || m.rs.regs.test != test
  }

  /** ZBUF or TEST differs from the recorded one. */
  predicate DepthChanged(m: Machine, zbuf: nat, test: nat)
  {
    !m.rs.isValid || m.rs.regs.zbuf != zbuf || m.rs.regs.test != test
  }

  /** The framebuffer state was invalidated, or FRAME, ZBUF, SCISSOR or TEST differs. */
  predicate FramebufferChanged(m: Machine, c: ContextRegs)
  {
    !m.rs.isValid || !m.rs.isFramebufferStateValid || m.rs.regs.frame != c.frame || m.rs.regs.zbuf != c.zbuf ||
    m.rs.regs.scissor != c.scissor || m.rs.regs.test != c.test
  }

  /** The texture state was invalidated, or TEX0, TEX1, TEXA, CLAMP or PRIM differs. */
  predicate TextureChanged(m: Machine, prim: nat, c: ContextRegs)
  {
    !m.rs.isValid || !m.rs.isTextureStateValid || m.rs.regs.tex0 != c.tex0 || m.rs.regs.tex1 != c.tex1 ||
    m.rs.regs.texA != c.texA || m.rs.regs.clamp != c.clamp || m.rs.regs.prim != prim
  }

  /** FOGCOL differs from the recorded one. */
  predicate FogChanged(m: Machine, fogCol: nat)
  {
    !m.rs.isValid || m.rs.regs.fogCol != fogCol
  }

  /**
   * Shader selection: a new descriptor is adopted when its 64-bit value
   * differs (or the state is invalid); see `TruncatedKey.AdoptedCapsAsWritten` for the
   * truncated comparison of the source.
   */
  function ShaderStep(m: Machine, caps: Caps): (r: Machine)
    ensures Valid(m) ==> Valid(r)
    ensures r.rs.shaderCaps == caps
    ensures r.rs == m.rs.(shaderCaps := caps, shaderHandle := r.rs.shaderHandle)
    ensures ShaderChanged(m, caps) ==> r.batch == [] && r == FlushVertexBuffer(m).(rs := r.rs)
    ensures !ShaderChanged(m, caps) ==> r == m
    ensures r.front == m.front && BatchDrawn(m, r)
  {
    if ShaderChanged(m, caps) then
      var f := FlushVertexBuffer(m);
      f.(rs := f.rs.(shaderCaps := caps))
    else m
  }

  /** Blend enable follows PRIM's ABE bit. */
  function BlendStep(m: Machine, prim: nat): (r: Machine)
    ensures r.rs.shaderCaps == m.rs.shaderCaps
    ensures SameValidParts(m, r) || SameValidParts(FlushVertexBuffer(m), r)
    ensures r.front == m.front && BatchDrawn(m, r)
    ensures BlendChanged(m, prim) ==>
              r.batch == [] && r.rs.blendEnabled == (PrimAlpha(prim) != 0) && r.validGlState & GLSTATE_BLEND == 0 &&
              r == FlushVertexBuffer(m).(rs := FlushVertexBuffer(m).rs.(blendEnabled := r.rs.blendEnabled),
                                         validGlState := Invalidate(FlushVertexBuffer(m).validGlState, GLSTATE_BLEND))
    ensures !BlendChanged(m, prim) ==> r == m
  {
    if BlendChanged(m, prim) then
      var f := FlushVertexBuffer(m);
      f.(rs := f.rs.(blendEnabled := PrimAlpha(prim) != 0), validGlState := Invalidate(f.validGlState, GLSTATE_BLEND))
    else m
  }

  /** The blending function follows ALPHA. */
  function AlphaStep(m: Machine, alpha: nat): (r: Machine)
    ensures r.rs.shaderCaps == m.rs.shaderCaps
    ensures SameValidParts(m, r) || SameValidParts(FlushVertexBuffer(m), r)
    ensures r.front == m.front && BatchDrawn(m, r)
    ensures AlphaChanged(m, alpha) ==>
              r.batch == [] && r.fp.alphaFix == AlphaFix(alpha) && r == SetupBlendingFunction(FlushVertexBuffer(m), alpha)
    ensures !AlphaChanged(m, alpha) ==> r == m
  {
    if AlphaChanged(m, alpha) then SetupBlendingFunction(FlushVertexBuffer(m), alpha) else m
  }

  /** The alpha reference and depth-test enable follow TEST. */
  function TestStep(m: Machine, test: nat): (r: Machine)
    ensures r.rs.shaderCaps == m.rs.shaderCaps
    ensures SameValidParts(m, r) || SameValidParts(FlushVertexBuffer(m), r)
    ensures r.front == m.front && BatchDrawn(m, r)
    ensures TestChanged(m, test) ==>
              r.batch == [] && r.fp.alphaRef == TestAlphaRef(test) && r.rs.depthTest == (TestDepthEnabled(test) != 0) &&
              r == SetupTestFunctions(FlushVertexBuffer(m), test)
    ensures !TestChanged(m, test) ==> r == m
  {
    if TestChanged(m, test) then SetupTestFunctions(FlushVertexBuffer(m), test) else m
  }

  /** The depth write mask follows ZBUF (re-applied when TEST changes too). */
  function DepthStep(m: Machine, zbuf: nat, test: nat): (r: Machine)
    ensures r.rs.shaderCaps == m.rs.shaderCaps
    ensures SameValidParts(m, r) || SameValidParts(FlushVertexBuffer(m), r)
    ensures r.front == m.front && BatchDrawn(m, r)
    ensures DepthChanged(m, zbuf, test) ==>
              r.batch == [] && r.fp.depthMask == DepthWriteMask(zbuf) && r == SetupDepthBuffer(FlushVertexBuffer(m), zbuf)
    ensures !DepthChanged(m, zbuf, test) ==> r == m
  {
    if DepthChanged(m, zbuf, test) then SetupDepthBuffer(FlushVertexBuffer(m), zbuf) else m
  }

  /**
   * The render target follows FRAME, ZBUF, SCISSOR and TEST. Apart from
   * the buffer caches, which may gain a framebuffer or a depth buffer,
   * the valid parts are those of the flushed machine.
   */
  function FramebufferStep(m: Machine, c: ContextRegs): (r: Machine)
    ensures r.rs.shaderCaps == m.rs.shaderCaps
    ensures r.front == m.front && BatchDrawn(m, r)
    ensures FramebufferChanged(m, c) ==>
              r.batch == [] && r == SetupFramebuffer(FlushVertexBuffer(m), c.frame, c.zbuf, c.scissor, c.test) &&
              SameValidParts(FlushVertexBuffer(m), r.(caches := FlushVertexBuffer(m).caches))
    ensures !FramebufferChanged(m, c) ==> r == m
  {
    if FramebufferChanged(m, c) then SetupFramebuffer(FlushVertexBuffer(m), c.frame, c.zbuf, c.scissor, c.test)
    else m
  }

  /** The bound texture follows TEX0, TEX1, TEXA, CLAMP and PRIM. */
  function TextureStep(m: Machine, prim: nat, c: ContextRegs): (r: Machine)
    ensures r.rs.shaderCaps == m.rs.shaderCaps
    ensures SameValidParts(m, r) || SameValidParts(FlushVertexBuffer(m), r)
    ensures r.front == m.front && BatchDrawn(m, r)
    ensures TextureChanged(m, prim, c) ==>
              r.batch == [] && r == SetupTexture(FlushVertexBuffer(m), prim, c.tex0, c.tex1, c.clamp)
    ensures !TextureChanged(m, prim, c) ==> r == m
  {
    if TextureChanged(m, prim, c) then SetupTexture(FlushVertexBuffer(m), prim, c.tex0, c.tex1, c.clamp) else m
  }

  /** A new FOGCOL marks the fragment parameters stale. */
  function FogStep(m: Machine, fogCol: nat): (r: Machine)
    ensures r.rs.shaderCaps == m.rs.shaderCaps
    ensures SameValidParts(m, r) || SameValidParts(FlushVertexBuffer(m), r)
    ensures r.front == m.front && BatchDrawn(m, r)
    ensures FogChanged(m, fogCol) ==>
              r.batch == [] && r.validGlState & GLSTATE_FRAGMENT_PARAMS == 0 && r == SetupFogColor(FlushVertexBuffer(m))
    ensures !FogChanged(m, fogCol) ==> r == m
  {
    if FogChanged(m, fogCol) then SetupFogColor(FlushVertexBuffer(m)) else m
  }

  /** The primitive offset of the context's XYOFFSET. */
  function OffsetOf(regs: RegFile, prim: nat): PrimOffset
  {
    var ofs := regs[REG_XYOFFSET_1 + PrimContext(prim)];
    PrimOffset(OffsetX(ofs), OffsetY(ofs))
  }

  /** The closing part of `SetRenderingContext`: offset, validity flags, recorded registers. */
  function RecordContext(m: Machine, prim: nat, c: ContextRegs): (r: Machine)
    ensures r.rs.shaderCaps == m.rs.shaderCaps
    ensures SameValidParts(m, r.(rs := r.rs.(isValid := m.rs.isValid)))
    ensures r.rs.isValid && r.rs.isTextureStateValid && r.rs.isFramebufferStateValid
    ensures r.rs.regs == Tracked(prim, c)
    ensures r.front.primOfs == OffsetOf(m.front.regs, prim)
    ensures r.front == m.front.(primOfs := r.front.primOfs) && r.batch == m.batch && r.draws == m.draws
  {
    m.(front := m.front.(primOfs := OffsetOf(m.front.regs, prim)),
       rs := m.rs.(isValid := true, isTextureStateValid := true, isFramebufferStateValid := true,
                   regs := Tracked(prim, c)))
  }

  /** The sub-state updates of `SetRenderingContext`, before the final recording. */
  function ApplyContext(m: Machine, prim: nat, c: ContextRegs, caps: Caps): (r: Machine)
    ensures r.front == m.front
  {
    var m1 := ShaderStep(m, caps);
    var m2 := BlendStep(m1, prim);
    var m3 := AlphaStep(m2, c.alpha);
    var m4 := TestStep(m3, c.test);
    var m5 := DepthStep(m4, c.zbuf, c.test);
    var m6 := FramebufferStep(m5, c);
    var m7 := TextureStep(m6, prim, c);
    FogStep(m7, c.fogCol)
  }

  /**
   * `SetRenderingContext`: derive the descriptor, then for each sub-state
   * whose registers differ from the recorded ones (or when the state is
   * invalid) flush the pending batch and re-apply that sub-state; finally
   * record everything as valid.
   */
  function SetRenderingContext(m: Machine, prim: U64): (r: Machine)
    ensures r.rs.isValid && r.rs.isTextureStateValid && r.rs.isFramebufferStateValid
    ensures r.rs.regs == Tracked(prim, ContextRegsOf(m.front.regs, prim))
    ensures r.front.primOfs == OffsetOf(m.front.regs, prim)
    ensures r.front == m.front.(primOfs := r.front.primOfs)
  {
    var c := ContextRegsOf(m.front.regs, prim);
    RecordContext(ApplyContext(m, prim, c, DeriveShaderCaps(prim, c, m.front.forceBilinear)), prim, c)
  }

  /** The eight sub-state updates together draw the pending batch at most once. */
  lemma ApplyContextDrawsBatchOnce(m: Machine, prim: nat, c: ContextRegs, caps: Caps)
    ensures BatchDrawn(m, ApplyContext(m, prim, c, caps))
  {
    var m1 := ShaderStep(m, caps);
    var m2 := BlendStep(m1, prim);
    var m3 := AlphaStep(m2, c.alpha);
    var m4 := TestStep(m3, c.test);
    var m5 := DepthStep(m4, c.zbuf, c.test);
    var m6 := FramebufferStep(m5, c);
    var m7 := TextureStep(m6, prim, c);
    var m8 := FogStep(m7, c.fogCol);
    BatchDrawnTrans(m, m1, m2);
    BatchDrawnTrans(m, m2, m3);
    BatchDrawnTrans(m, m3, m4);
    BatchDrawnTrans(m, m4, m5);
    BatchDrawnTrans(m, m5, m6);
    BatchDrawnTrans(m, m6, m7);
    BatchDrawnTrans(m, m7, m8);
  }

  /** `SetRenderingContext` draws the pending batch at most once, and never loses a vertex. */
  lemma SetRenderingContextDrawsBatchOnce(m: Machine, prim: U64)
    ensures BatchDrawn(m, SetRenderingContext(m, prim))
  {
    var c := ContextRegsOf(m.front.regs, prim);
    ApplyContextDrawsBatchOnce(m, prim, c, DeriveShaderCaps(prim, c, m.front.forceBilinear));
  }

  /**
   * With a valid state whose recorded registers and descriptor match
   * the current ones, `SetRenderingContext` flushes nothing and changes
   * nothing but the primitive offset.
   */
  lemma SetRenderingContextUnchanged(m: Machine, prim: U64)
    requires m.rs.isValid && m.rs.isTextureStateValid && m.rs.isFramebufferStateValid
    requires m.rs.regs == Tracked(prim, ContextRegsOf(m.front.regs, prim))
    requires m.rs.shaderCaps == DeriveShaderCaps(prim, ContextRegsOf(m.front.regs, prim), m.front.forceBilinear)
    ensures SetRenderingContext(m, prim) == m.(front := m.front.(primOfs := OffsetOf(m.front.regs, prim)))
  {
  }

  /** A step that changes none of the invariant's parts, before or after a flush, keeps it. */
  lemma StepKeepsValid(a: Machine, b: Machine)
    requires Valid(a)
    requires SameValidParts(a, b) || SameValidParts(FlushVertexBuffer(a), b)
    ensures Valid(b)
  {
    FlushKeepsValid(a);
    ValidFromParts(a, b);
    ValidFromParts(FlushVertexBuffer(a), b);
  }

  /** Re-targeting keeps the invariant: find-or-create adds no duplicate buffer. */
  lemma FramebufferStepKeepsValid(m: Machine, c: ContextRegs)
    requires Valid(m)
    ensures Valid(FramebufferStep(m, c))
  {
    if !m.rs.isValid || !m.rs.isFramebufferStateValid || m.rs.regs.frame != c.frame || m.rs.regs.zbuf != c.zbuf ||
       m.rs.regs.scissor != c.scissor || m.rs.regs.test != c.test {
      FlushKeepsValid(m);
      SetupFramebufferKeepsValid(FlushVertexBuffer(m), c.frame, c.zbuf, c.scissor, c.test);
    }
  }

  /** After `SetRenderingContext` the current descriptor is the one derived from the context's registers. */
  lemma SetRenderingContextSelectsShader(m: Machine, prim: U64)
    ensures SetRenderingContext(m, prim).rs.shaderCaps == DeriveShaderCaps(prim, ContextRegsOf(m.front.regs, prim), m.front.forceBilinear)
  {
  }

  /** Each of the eight sub-state updates keeps the invariant. */
  lemma ApplyContextKeepsValid(m: Machine, prim: nat, c: ContextRegs, caps: Caps)
    requires Valid(m)
    ensures Valid(ApplyContext(m, prim, c, caps))
  {
    var m1 := ShaderStep(m, caps);
    var m2 := BlendStep(m1, prim);
    StepKeepsValid(m1, m2);
    var m3 := AlphaStep(m2, c.alpha);
    StepKeepsValid(m2, m3);
    var m4 := TestStep(m3, c.test);
    StepKeepsValid(m3, m4);
    var m5 := DepthStep(m4, c.zbuf, c.test);
    StepKeepsValid(m4, m5);
    FramebufferStepKeepsValid(m5, c);
    var m6 := FramebufferStep(m5, c);
    var m7 := TextureStep(m6, prim, c);
    StepKeepsValid(m6, m7);
    StepKeepsValid(m7, FogStep(m7, c.fogCol));
  }

  /** `SetRenderingContext` keeps the invariant. */
  lemma SetRenderingContextKeepsValid(m: Machine, prim: U64)
    requires Valid(m)
    ensures Valid(SetRenderingContext(m, prim))
  {
    var c := ContextRegsOf(m.front.regs, prim);
    var caps := DeriveShaderCaps(prim, c, m.front.forceBilinear);
    ApplyContextKeepsValid(m, prim, c, caps);
    var a := ApplyContext(m, prim, c, caps);
    var r := RecordContext(a, prim, c);
    ValidFromParts(a, r.(rs := r.rs.(isValid := a.rs.isValid)));
  }

  // ---------------------------------------------------------------
  // VertexKick, Prim_*, WriteRegisterImpl
  // ---------------------------------------------------------------

  /**
   * The vertex a kick stores: XYZF kicks split the value into a 56-bit
   * position and the fog byte; XYZ kicks keep the whole value and take
   * the fog byte from the FOG register.
   */
  function KickVertex(regs: RegFile, value: U64, fog: bool): (v: Vertex)
    ensures v.rgbaq == regs[REG_RGBAQ] && v.uv == regs[REG_UV] && v.st == regs[REG_ST]
    ensures fog ==> v.position + 0x100_0000_0000_0000 * v.fog == value && v.position < 0x100_0000_0000_0000
    ensures !fog ==> v.position == value && v.fog == regs[REG_FOG] / 0x100_0000_0000_0000
  {
    if fog then Vertex(value % 0x100_0000_0000_0000, regs[REG_RGBAQ], regs[REG_UV], regs[REG_ST], value / 0x100_0000_0000_0000)
    else Vertex(value, regs[REG_RGBAQ], regs[REG_UV], regs[REG_ST], regs[REG_FOG] / 0x100_0000_0000_0000)
  }

  /** The `Prim_*` routine of a primitive type, as the vertices it appends. */
  function PrimitiveVertices(primType: nat, w: seq<Vertex>, ofs: PrimOffset, primMode: nat): (vs: seq<PrimVertex>)
    requires |w| == 3
    ensures primType == PRIM_POINT ==> vs == PointVertices(w, ofs)
    ensures primType == PRIM_LINE || primType == PRIM_LINESTRIP ==> vs == LineVertices(w, ofs)
    ensures primType in {PRIM_TRIANGLE, PRIM_TRIANGLESTRIP, PRIM_TRIANGLEFAN} ==> vs == TriangleVertices(w, ofs, primMode)
    ensures primType == PRIM_SPRITE ==> vs == SpriteVertices(w, ofs)
    ensures primType >= PRIM_INVALID ==> vs == []
  {
    if primType == PRIM_POINT then PointVertices(w, ofs)
    else if primType == PRIM_LINE || primType == PRIM_LINESTRIP then LineVertices(w, ofs)
    else if primType in {PRIM_TRIANGLE, PRIM_TRIANGLESTRIP, PRIM_TRIANGLEFAN} then TriangleVertices(w, ofs, primMode)
    else if primType == PRIM_SPRITE then SpriteVertices(w, ofs)
    else []
  }

  /**
   * Points, lines and triangles emit their vertices in the order the
   * assembler reads the slots: the same count, and each vertex at the
   * position of the slot in that place of `EmissionOrder`.
   */
  lemma PrimitiveFollowsEmissionOrder(primType: nat, w: seq<Vertex>, ofs: PrimOffset, primMode: nat)
    requires |w| == 3 && primType < PRIM_SPRITE
    ensures var vs := PrimitiveVertices(primType, w, ofs, primMode);
            var order := EmissionOrder(primType, w);
            |vs| == |order| &&
            forall i :: 0 <= i < |vs| ==>
              vs[i].x16 == XyzX(order[i].position) - ofs.x16 && vs[i].y16 == XyzY(order[i].position) - ofs.y16 &&
              vs[i].z == XyzZ(order[i].position)
  {
  }

  /** Whether a kick on this register draws: XYZ2/XYZF2, with drawing enabled. */
  function IsDrawingKick(reg: nat, drawEnabled: bool): (d: bool)
    ensures d <==> drawEnabled && (reg == REG_XYZ2 || reg == REG_XYZF2)
  {
    (reg == REG_XYZ2 || reg == REG_XYZF2) && drawEnabled
  }

  /** The primitive attributes PRMODECONT selects: PRIM's own, or PRMODE's. */
  function PrimitiveModeOf(regs: RegFile): (mode: U64)
    ensures regs[REG_PRMODECONT] % 2 != 0 ==> mode == regs[REG_PRIM]
    ensures regs[REG_PRMODECONT] % 2 == 0 ==> mode == regs[REG_PRMODE]
  {
    if regs[REG_PRMODECONT] % 2 != 0 then regs[REG_PRIM] else regs[REG_PRMODE]
  }

  /**
   * A drawing kick's completed primitive: the rendering context is set up
   * for its attributes, then its vertices join the batch.
   */
  function DrawPrimitive(m: Machine, primMode: U64): (r: Machine)
    requires WindowOk(m)
    ensures var ctx := SetRenderingContext(m, primMode);
            r == ctx.(batch := ctx.batch + PrimitiveVertices(m.front.primitiveType, m.front.vtx, ctx.front.primOfs, primMode))
  {
    var ctx := SetRenderingContext(m, primMode);
    ctx.(batch := ctx.batch + PrimitiveVertices(ctx.front.primitiveType, ctx.front.vtx, ctx.front.primOfs, primMode))
  }

  /**
   * The end of a primitive, once the countdown reached zero: select the
   * primitive attributes; a drawing kick sets up the rendering context and
   * appends the primitive; then the window is reseeded. `DrawToDepth` is
   * compiled out and does nothing.
   */
  function CompletePrimitive(m: Machine, drawing: bool): (r: Machine)
    requires WindowOk(m)
    ensures WindowOk(r) && r.front.regs == m.front.regs && r.front.primitiveType == m.front.primitiveType
    ensures Window(r.front.vtx, r.front.vtxCount) == Reseed(m.front.primitiveType, m.front.vtx)
    ensures !drawing ==> r.batch == m.batch && r.draws == m.draws && r.rs == m.rs && r.caches.shaders == m.caches.shaders
    ensures drawing ==>
              var mode := PrimitiveModeOf(m.front.regs);
              var ctx := SetRenderingContext(m.(front := m.front.(primitiveMode := mode)), mode);
              r.batch == ctx.batch + PrimitiveVertices(m.front.primitiveType, m.front.vtx, ctx.front.primOfs, mode)
  {
    var mode := PrimitiveModeOf(m.front.regs);
    var m1 := m.(front := m.front.(primitiveMode := mode));
    var m2 := if drawing then DrawPrimitive(m1, mode) else m1;
    var w := Reseed(m2.front.primitiveType, m2.front.vtx);
    m2.(front := m2.front.(vtx := w.slots, vtxCount := w.count))
  }

  /**
   * `VertexKick`: ignored when the countdown is zero; otherwise the vertex
   * goes into slot `count - 1` and the countdown drops, completing the
   * primitive when it reaches zero.
   */
  function VertexKick(m: Machine, reg: nat, value: U64): (r: Machine)
    requires WindowOk(m)
    ensures WindowOk(r) && r.front.regs == m.front.regs
    ensures m.front.vtxCount == 0 ==> r == m
  {
    if m.front.vtxCount == 0 then m
    else
      var drawing := IsDrawingKick(reg, m.front.drawEnabled);
      var v := KickVertex(m.front.regs, value, reg == REG_XYZF2 || reg == REG_XYZF3);
      var w := Store(Window(m.front.vtx, m.front.vtxCount), v);
      var m1 := m.(front := m.front.(vtx := w.slots, vtxCount := w.count));
      if w.count != 0 then m1 else CompletePrimitive(m1, drawing)
  }

  /** The kick's effect on the window is exactly one step of the vertex assembler. */
  lemma KickFollowsAssembler(m: Machine, reg: nat, value: U64)
    requires WindowOk(m)
    ensures var r := VertexKick(m, reg, value);
            var v := KickVertex(m.front.regs, value, reg == REG_XYZF2 || reg == REG_XYZF3);
            Window(r.front.vtx, r.front.vtxCount) == Step(m.front.primitiveType, Window(m.front.vtx, m.front.vtxCount), v, IsDrawingKick(reg, m.front.drawEnabled)).0
  {
    if m.front.vtxCount != 0 {
      var v := KickVertex(m.front.regs, value, reg == REG_XYZF2 || reg == REG_XYZF3);
      var w := Store(Window(m.front.vtx, m.front.vtxCount), v);
      assert Window(m.front.vtx, m.front.vtxCount).count != 0;
    }
  }

  /**
   * A kick that completes no drawn primitive — the countdown does not
   * reach zero, or the kick is XYZ3/XYZF3 or drawing is disabled — leaves
   * the batch, the draws and the render state alone.
   */
  lemma NonDrawingKickAppendsNothing(m: Machine, reg: nat, value: U64)
    requires WindowOk(m)
    requires m.front.vtxCount != 1 || !IsDrawingKick(reg, m.front.drawEnabled)
    ensures var r := VertexKick(m, reg, value);
            r.batch == m.batch && r.draws == m.draws && r.rs == m.rs && r.caches.shaders == m.caches.shaders
  {
  }

  /** A kick that brings the countdown from one to zero completes the primitive in the updated window. */
  lemma LastKickCompletes(m: Machine, reg: nat, value: U64)
    requires WindowOk(m) && m.front.vtxCount == 1
    ensures var v := KickVertex(m.front.regs, value, reg == REG_XYZF2 || reg == REG_XYZF3);
            VertexKick(m, reg, value) == CompletePrimitive(m.(front := m.front.(vtx := m.front.vtx[0 := v], vtxCount := 0)), IsDrawingKick(reg, m.front.drawEnabled))
  {
    var v := KickVertex(m.front.regs, value, reg == REG_XYZF2 || reg == REG_XYZF3);
    var w := Store(Window(m.front.vtx, m.front.vtxCount), v);
    assert w == Window(m.front.vtx[0 := v], 0);
  }

  /**
   * A completed, drawn point, line or triangle: after the (at most one)
   * flush of the old batch by `SetRenderingContext`, the batch ends with
   * one vertex per slot the assembler emits, in emission order.
   */
  lemma DrawnPrimitiveFollowsEmission(m: Machine)
    requires WindowOk(m) && m.front.primitiveType < PRIM_SPRITE
    ensures var mode := PrimitiveModeOf(m.front.regs);
            var ctx := SetRenderingContext(m.(front := m.front.(primitiveMode := mode)), mode);
            var order := EmissionOrder(m.front.primitiveType, m.front.vtx);
            var pv := PrimitiveVertices(m.front.primitiveType, m.front.vtx, ctx.front.primOfs, mode);
            CompletePrimitive(m, true).batch == ctx.batch + pv &&
            (ctx.batch == [] || ctx.batch == m.batch) &&
            |pv| == |order| &&
            forall i :: 0 <= i < |pv| ==>
              pv[i].x16 == XyzX(order[i].position) - ctx.front.primOfs.x16 &&
              pv[i].y16 == XyzY(order[i].position) - ctx.front.primOfs.y16 &&
              pv[i].z == XyzZ(order[i].position)
  {
    var mode := PrimitiveModeOf(m.front.regs);
    var m1 := m.(front := m.front.(primitiveMode := mode));
    SetRenderingContextDrawsBatchOnce(m1, mode);
    PrimitiveFollowsEmissionOrder(m.front.primitiveType, m.front.vtx, SetRenderingContext(m1, mode).front.primOfs, mode);
  }

  /**
   * A drawing kick that completes a point, line or triangle appends the
   * one primitive the assembler emits for that kick.
   */
  lemma DrawingKickAppendsPrimitive(m: Machine, reg: nat, value: U64)
    requires WindowOk(m) && m.front.vtxCount == 1 && IsDrawingKick(reg, m.front.drawEnabled) && m.front.primitiveType < PRIM_SPRITE
    ensures var v := KickVertex(m.front.regs, value, reg == REG_XYZF2 || reg == REG_XYZF3);
            var emitted := Step(m.front.primitiveType, Window(m.front.vtx, m.front.vtxCount), v, true).1;
            |emitted| == 1 && emitted[0] == EmissionOrder(m.front.primitiveType, m.front.vtx[0 := v]) &&
            VertexKick(m, reg, value) == CompletePrimitive(m.(front := m.front.(vtx := m.front.vtx[0 := v], vtxCount := 0)), true)
  {
    var v := KickVertex(m.front.regs, value, reg == REG_XYZF2 || reg == REG_XYZF3);
    var w := Store(Window(m.front.vtx, m.front.vtxCount), v);
    assert w == Window(m.front.vtx[0 := v], 0);
    LastKickCompletes(m, reg, value);
  }

  /** Completing a primitive keeps the invariant. */
  lemma CompletePrimitiveKeepsValid(m: Machine, drawing: bool)
    requires Valid(m)
    ensures Valid(CompletePrimitive(m, drawing))
  {
    if drawing {
      var mode := PrimitiveModeOf(m.front.regs);
      SetRenderingContextKeepsValid(m.(front := m.front.(primitiveMode := mode)), mode);
    }
  }

  /** A kick keeps the invariant. */
  lemma VertexKickKeepsValid(m: Machine, reg: nat, value: U64)
    requires Valid(m)
    ensures Valid(VertexKick(m, reg, value))
  {
    if m.front.vtxCount != 0 {
      var v := KickVertex(m.front.regs, value, reg == REG_XYZF2 || reg == REG_XYZF3);
      var w := Store(Window(m.front.vtx, m.front.vtxCount), v);
      var m1 := m.(front := m.front.(vtx := w.slots, vtxCount := w.count));
      if w.count == 0 {
        CompletePrimitiveKeepsValid(m1, IsDrawingKick(reg, m.front.drawEnabled));
      }
    }
  }

  /**
   * The PRIM case of `WriteRegisterImpl`: a change of primitive type
   * flushes the batch; the countdown restarts for the new type.
   */
  function SetPrimitiveType(m: Machine, t: nat): (r: Machine)
    requires t < 8
    ensures r.front == m.front.(primitiveType := t, vtxCount := InitialCount(t, m.front.vtxCount))
    ensures t == m.front.primitiveType ==> r.batch == m.batch && r.draws == m.draws
    ensures t != m.front.primitiveType ==> r.batch == [] && BatchDrawn(m, r)
    ensures SameValidParts(m, r.(front := m.front)) || SameValidParts(FlushVertexBuffer(m), r.(front := m.front))
  {
    var m1 := if t != m.front.primitiveType then FlushVertexBuffer(m) else m;
    m1.(front := m1.front.(primitiveType := t, vtxCount := InitialCount(t, m1.front.vtxCount)))
  }

  /**
   * `WriteRegisterImpl`: the register file takes the value; a PRIM write
   * sets the primitive type (the low three bits); a position register
   * kicks a vertex.
   */
  function WriteRegister(m: Machine, reg: nat, data: U64): (r: Machine)
    requires WindowOk(m) && reg < REG_COUNT
    ensures WindowOk(r)
    ensures r.front.regs == m.front.regs[reg := data]
    ensures reg == REG_PRIM ==> r.front.primitiveType == data % 8 && r.front.vtxCount == InitialCount(data % 8, m.front.vtxCount)
    ensures reg == REG_PRIM && data % 8 == m.front.primitiveType ==> r.batch == m.batch && r.draws == m.draws
    ensures reg == REG_PRIM && data % 8 != m.front.primitiveType ==> r.batch == [] && BatchDrawn(m, r)
    ensures reg != REG_PRIM && !IsKickRegister(reg) ==> r == m.(front := m.front.(regs := m.front.regs[reg := data]))
  {
    var m1 := m.(front := m.front.(regs := m.front.regs[reg := data]));
    if reg == REG_PRIM then SetPrimitiveType(m1, data % 8)
    else if IsKickRegister(reg) then VertexKick(m1, reg, data)
    else m1
  }

  /** A register write keeps the invariant. */
  lemma WriteRegisterKeepsValid(m: Machine, reg: nat, data: U64)
    requires Valid(m) && reg < REG_COUNT
    ensures Valid(WriteRegister(m, reg, data))
  {
    var m1 := m.(front := m.front.(regs := m.front.regs[reg := data]));
    if reg != REG_PRIM && IsKickRegister(reg) {
      VertexKickKeepsValid(m1, reg, data);
    }
  }

  // ---------------------------------------------------------------
  // Reset, preferences, Flip, transfers
  // ---------------------------------------------------------------

  /**
   * `ResetImpl`: both caches and the batch are cleared, the render state
   * and every GL state bit are invalid, and no primitive type is set.
   */
  function Reset(m: Machine, forceBilinear: bool): (r: Machine)
    ensures r.caches.framebuffers == [] && r.caches.depthbuffers == [] && r.batch == []
    ensures !r.rs.isValid && r.validGlState == 0 && !r.drawingToDepth && r.front.primitiveType == PRIM_INVALID
    ensures r.front.forceBilinear == forceBilinear && r.draws == m.draws && r.caches.shaders == m.caches.shaders
    ensures WindowOk(m) && ShadersKeyed(m.caches.shaders) ==> Valid(r)
  {
    m.(front := m.front.(forceBilinear := forceBilinear, primitiveType := PRIM_INVALID),
       caches := m.caches.(framebuffers := [], depthbuffers := []), batch := [],
       rs := m.rs.(isValid := false), validGlState := 0, drawingToDepth := false)
  }

  /** `NotifyPreferencesChangedImpl`: new preferences and empty buffer caches; the batch stays. */
  function NotifyPreferencesChanged(m: Machine, forceBilinear: bool): (r: Machine)
    ensures r.caches.framebuffers == [] && r.caches.depthbuffers == [] && r.front.forceBilinear == forceBilinear
    ensures r == m.(front := m.front.(forceBilinear := forceBilinear), caches := m.caches.(framebuffers := [], depthbuffers := []))
    ensures Valid(m) ==> Valid(r)
  {
    m.(front := m.front.(forceBilinear := forceBilinear), caches := m.caches.(framebuffers := [], depthbuffers := []))
  }

  /** The DISPFB of the read circuit `GetCurrentReadCircuit` selects. */
  function DisplayedFb(pmode: nat, dispFb1: nat, dispFb2: nat): (fb: nat)
    ensures fb == dispFb1 || fb == dispFb2
    ensures pmode % 4 == 1 ==> fb == dispFb1
    ensures pmode % 4 == 2 ==> fb == dispFb2
  {
    if Presentation.CurrentReadCircuit(pmode, dispFb1, dispFb2) == 0 then dispFb1 else dispFb2
  }

  /**
   * The state part of `FlipImpl`: flush, invalidate everything, and find
   * (or, for a non-zero width, create) the framebuffer being displayed.
   */
  function Flip(m: Machine, pmode: nat, dispFb1: nat, dispFb2: nat, bitDepth: nat -> nat): (r: (Machine, Option<Framebuffer>))
    ensures var f := FlushVertexBuffer(m);
            var e := EnsureDisplayFramebuffer(f.caches.framebuffers, DisplayedFb(pmode, dispFb1, dispFb2), bitDepth);
            r == (f.(rs := f.rs.(isValid := false), validGlState := 0, caches := f.caches.(framebuffers := e.0)), e.1)
    ensures BatchDrawn(m, r.0) && r.0.batch == []
    ensures !r.0.rs.isValid && r.0.validGlState == 0
  {
    var f := FlushVertexBuffer(m);
    var (fbs, shown) := EnsureDisplayFramebuffer(f.caches.framebuffers, DisplayedFb(pmode, dispFb1, dispFb2), bitDepth);
    (f.(rs := f.rs.(isValid := false), validGlState := 0, caches := f.caches.(framebuffers := fbs)), shown)
  }

  /** `FlipImpl` keeps the invariant: the displayed framebuffer is only created on a miss. */
  lemma FlipKeepsValid(m: Machine, pmode: nat, dispFb1: nat, dispFb2: nat, bitDepth: nat -> nat)
    requires Valid(m)
    ensures Valid(Flip(m, pmode, dispFb1, dispFb2, bitDepth).0)
  {
    var f := FlushVertexBuffer(m);
    EnsureDisplayFramebufferKeepsDistinct(f.caches.framebuffers, DisplayedFb(pmode, dispFb1, dispFb2), bitDepth);
  }

  /**
   * The state part of `ProcessHostToLocalTransfer`: flush, mark textures
   * and framebuffers stale, and mark the program and texture bindings
   * stale for the compute dispatch.
   */
  function HostToLocal(m: Machine): (r: Machine)
    ensures var f := FlushVertexBuffer(m);
            r == f.(rs := f.rs.(isTextureStateValid := false, isFramebufferStateValid := false),
                    validGlState := Invalidate(Invalidate(f.validGlState, GLSTATE_PROGRAM), GLSTATE_TEXTURE))
    ensures r.rs.isValid == m.rs.isValid && BatchDrawn(m, r) && r.batch == []
    ensures Valid(m) ==> Valid(r)
  {
    var f := FlushVertexBuffer(m);
    f.(rs := f.rs.(isTextureStateValid := false, isFramebufferStateValid := false),
       validGlState := Invalidate(Invalidate(f.validGlState, GLSTATE_PROGRAM), GLSTATE_TEXTURE))
  }

  /**
   * The parameters of the host-to-local compute dispatch, for a transfer
   * buffer holding `offset` bytes: pixel count and work-group count, or
   * None for a destination format with no transfer program.
   */
  function HostToLocalDispatch(regs: RegFile, offset: U32): (r: Option<(U32, U32)>)
    ensures r.Some? <==> IsHostTransferPsm(BltDstPsm(regs[REG_BITBLTBUF]))
    ensures r.Some? ==> r.value.0 == XferPixelCount(BltDstPsm(regs[REG_BITBLTBUF]), offset).value &&
                        r.value.1 == XferWorkUnits(r.value.0)
  {
    var count := XferPixelCount(BltDstPsm(regs[REG_BITBLTBUF]), offset);
    if count.Some? then Some((count.value, XferWorkUnits(count.value))) else None
  }

  /** `ProcessClutTransfer`: flush, textures stale, program and texture bindings stale. */
  function ClutTransfer(m: Machine): (r: Machine)
    ensures var f := FlushVertexBuffer(m);
            r == f.(rs := f.rs.(isTextureStateValid := false),
                    validGlState := Invalidate(Invalidate(f.validGlState, GLSTATE_PROGRAM), GLSTATE_TEXTURE))
    ensures Valid(m) ==> Valid(r)
  {
    var f := FlushVertexBuffer(m);
    f.(rs := f.rs.(isTextureStateValid := false),
       validGlState := Invalidate(Invalidate(f.validGlState, GLSTATE_PROGRAM), GLSTATE_TEXTURE))
  }

  /**
   * `ProcessLocalToLocalTransfer`: when both the source and the
   * destination areas of BITBLTBUF are cached framebuffers, the batch is
   * flushed and the render state invalidated before the blit; otherwise
   * nothing happens.
   */
  function LocalToLocal(m: Machine): (r: Machine)
    ensures var blt := m.front.regs[REG_BITBLTBUF];
            var found := FindTransferFramebuffer(m.caches.framebuffers, BltSrcPtr(blt), BltSrcWidth(blt)).Some? &&
                         FindTransferFramebuffer(m.caches.framebuffers, BltDstPtr(blt), BltDstWidth(blt)).Some?;
            (found ==> r == (var f := FlushVertexBuffer(m); f.(rs := f.rs.(isValid := false)))) &&
            (!found ==> r == m)
    ensures Valid(m) ==> Valid(r)
  {
    var blt := m.front.regs[REG_BITBLTBUF];
    var src := FindTransferFramebuffer(m.caches.framebuffers, BltSrcPtr(blt), BltSrcWidth(blt));
    var dst := FindTransferFramebuffer(m.caches.framebuffers, BltDstPtr(blt), BltDstWidth(blt));
    if src.Some? && dst.Some? then
      var f := FlushVertexBuffer(m);
      f.(rs := f.rs.(isValid := false))
    else m
  }

  /** The only read-back `ProcessLocalToHostTransfer` supports: a 32x32 CT32 block at address 0 and origin 0. */
  predicate LocalToHostSupported(regs: RegFile)
  {
    var blt := regs[REG_BITBLTBUF];
    var pos := regs[REG_TRXPOS];
    var trx := regs[REG_TRXREG];
    BltSrcPsm(blt) == PSMCT32 && BltSrcPtr(blt) == 0 &&
    TrxRegRrw(trx) == 32 && TrxRegRrh(trx) == 32 && TrxPosSsax(pos) == 0 && TrxPosSsay(pos) == 0
  }

  /** The framebuffer `ProcessLocalToHostTransfer` reads from: the first CT32 one at address 0. */
  function LocalToHostSource(fbs: seq<Framebuffer>): (r: Option<nat>)
    ensures r.Some? ==> r.value < |fbs| && fbs[r.value].psm == PSMCT32 && fbs[r.value].basePtr == 0
    ensures r.None? <==> forall j :: 0 <= j < |fbs| ==> !(fbs[j].psm == PSMCT32 && fbs[j].basePtr == 0)
  {
    FindFirst(fbs, (fb: Framebuffer) => fb.psm == PSMCT32 && fb.basePtr == 0)
  }

  /**
   * The state part of `ProcessLocalToHostTransfer`: a supported read-back
   * from a cached framebuffer flushes and invalidates the render state;
   * anything else leaves the state alone.
   */
  function LocalToHost(m: Machine): (r: Machine)
    ensures LocalToHostSupported(m.front.regs) && LocalToHostSource(m.caches.framebuffers).Some? ==>
              r == (var f := FlushVertexBuffer(m); f.(rs := f.rs.(isValid := false)))
    ensures !LocalToHostSupported(m.front.regs) || LocalToHostSource(m.caches.framebuffers).None? ==> r == m
    ensures Valid(m) ==> Valid(r)
  {
    if !LocalToHostSupported(m.front.regs) || LocalToHostSource(m.caches.framebuffers).None? then m
    else
      var f := FlushVertexBuffer(m);
      f.(rs := f.rs.(isValid := false))
  }
}
