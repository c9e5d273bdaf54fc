# A verified model of the OpenGL GS renderer

This project models the register-driven core of the Play! emulator's OpenGL
Graphics Synthesizer renderer (`CGSH_OpenGL`). It also models the integer
semantics of the GLSL helper code that the renderer emits for its shaders.
Every OpenGL call is treated as an opaque command: the model records what
the renderer decides (which draw is issued, which state goes stale, which
buffer is found or created), not what the driver does with it.

The modules follow the renderer's structure:

- `GsRegs` holds the GS register fields the renderer reads (PRIM, TEST,
  FRAME, ZBUF, TEX0, ...) as accessors on 64-bit register values, and the
  storage-mode constants.
- `Primitives` and `Assembler` hold the vertex records and `MakeColor`.
  They model the `Prim_Point/Line/Triangle/Sprite` emitters, the three-slot
  kick window of `VertexKick` with its countdown and reseeding, and prove
  the strip, fan and line-strip emission orders.
- `ShaderCaps` models the 64-bit `SHADERCAPS` descriptor and its packing;
  `CapsDerivation` models `FillShaderCapsFrom*`, the region-repeat
  simplification test and the clamp ranges.
- `GlState` models the `GLSTATE_*` dirty bits; `RenderState` models the
  depth, colour and scissor masks and the texture filter and wrap choices
  of `SetupFramebuffer`, `SetupDepthBuffer` and `SetupTexture`.
- `ResourceCaches` models the framebuffer and depth-buffer lists, with
  their linear look-ups and find-or-create.
- `RendererSpec` is the renderer as a state machine (`Machine`): register
  writes, vertex kicks, `SetRenderingContext`, flushing, render passes,
  flips, transfers and reset. Its lemmas state the properties.
- `Renderer` is the imperative renderer: class `GsRenderer`, whose fields
  are the renderer's members (`m_VtxBuffer` is an array). Every method is
  proved to take the abstract state `Model()` exactly as the matching
  `RendererSpec` function does.
- `Transfer` and `Presentation` hold the host-to-local pixel-count and
  work-group arithmetic, the swizzle-table choice, the read-circuit choice,
  and the FILL/FIT/ORIGINAL viewport computation of `FlipImpl`.
- The `Glsl*` modules model the emitted helpers:
  - `GlslBitwise`: the arithmetic `and`/`or` loops and texture-coordinate
    clamping;
  - `GlslMemory`: memory reads and the AND-then-OR masked writes over an
    `array2` image;
  - `GlslAddress`: paged addressing with an abstract swizzle table;
  - `GlslXfer`: the transfer programs;
  - `GlslClut`: the CLUT loader and the palette reader.
- `FragmentLogic` holds the decisions `GenerateFragmentShader` builds into
  a fragment program: the alpha and depth tests, write gating, channel
  masks and blend operands.
- `TruncatedKey` holds the shader cache and shader-change test exactly as
  written, keyed by `static_cast<uint32>` of the descriptor.

Arithmetic is on unbounded integers, except where the source relies on
width: GLSL `uint` and the host's `uint32` wrap modulo 2^32, and this is
written out. Shader memory words are `bv32`.

Where the code and its surrounding design disagree, the model follows the
code. There are three such places, listed under "Findings". For each one
the as-written behaviour is modelled and shown to misbehave, and the
corrected definition is the one the rest of the model uses. The cache key
is one of them: the renderer keys shader programs by the low 32 bits of a
64-bit descriptor. `TruncatedKey` models that key as written, while
`RendererSpec` keys by the whole descriptor.

## Model

| member | source | states |
|---|---|---|
| Assembler.InitialCount | Source/gs/GSH_OpenGL/GSH_OpenGL.cpp:2071-2088 | the countdown a PRIM write sets: 1 for points, 2 for lines, line strips and sprites, 3 for triangles, strips and fans; the reserved type keeps the old countdown |
| Assembler.CountdownMatchesEmission | Source/gs/GSH_OpenGL/GSH_OpenGL.cpp:2071-2088 | a fresh countdown equals the number of window slots the primitive reads when it is emitted |
| Assembler.Store | Source/gs/GSH_OpenGL/GSH_OpenGL.cpp:2110-2127 | a kick writes slot `count - 1`, decrements the countdown and leaves the other two slots alone |
| Assembler.EmissionOrder | Source/gs/GSH_OpenGL/GSH_OpenGL.cpp:1543-1738 | the slots each primitive reads, oldest first: slot 0 for a point, slots 1, 0 for lines and sprites, slots 2, 1, 0 for triangles |
| Assembler.Reseed | Source/gs/GSH_OpenGL/GSH_OpenGL.cpp:2145-2179 | the window after a completed primitive: lists restart their countdown; a line strip and a fan copy slot 0 into slot 1; a triangle strip shifts slots 1, 0 into 2, 1; all strips and fans wait for one more vertex |
| Assembler.Step | Source/gs/GSH_OpenGL/GSH_OpenGL.cpp:2103-2179 | a kick with a zero countdown changes nothing; a non-drawing kick emits nothing; a kick emits at most one primitive |
| Assembler.NonDrawingKickAdvancesWindow | Source/gs/GSH_OpenGL/GSH_OpenGL.cpp:2105-2179 | an XYZ3/XYZF3 kick, or any kick while drawing is disabled, moves the window exactly as a drawing kick would and emits nothing |
| Assembler.TriangleStripOrder | Source/gs/GSH_OpenGL/GSH_OpenGL.cpp:2164-2169 | after a PRIM write, a triangle strip fed kicks k0, k1, ... emits (k0,k1,k2), (k1,k2,k3), ... in order |
| Assembler.TriangleFanOrder | Source/gs/GSH_OpenGL/GSH_OpenGL.cpp:2170-2174 | a fan emits (k0,k1,k2), (k0,k2,k3), ... around its first vertex |
| Assembler.LineStripOrder | Source/gs/GSH_OpenGL/GSH_OpenGL.cpp:2155-2159 | a line strip emits (k0,k1), (k1,k2), ... in order |
| Assembler.PointListOrder | Source/gs/GSH_OpenGL/GSH_OpenGL.cpp:2147-2150 | a point list emits (k0), (k1), ..., one point per kick |
| Assembler.PairListOrder | Source/gs/GSH_OpenGL/GSH_OpenGL.cpp:2151-2154 | a line list, and likewise a sprite list (which restarts its countdown the same way), emits (k0,k1), (k2,k3), ...; a trailing unpaired kick is not drawn |
| Assembler.TriangleListOrder | Source/gs/GSH_OpenGL/GSH_OpenGL.cpp:2160-2163 | a triangle list emits (k0,k1,k2), (k3,k4,k5), ...; a trailing partial triangle is not drawn |
| Assembler.StripContinues | Source/gs/GSH_OpenGL/GSH_OpenGL.cpp:2164-2169 | a reseeded strip window emits one triangle per further kick, each made of the two previous vertices and the new one |
| Assembler.FanContinues | Source/gs/GSH_OpenGL/GSH_OpenGL.cpp:2170-2174 | a reseeded fan window keeps its anchor and emits one triangle per further kick |
| Assembler.LineStripContinues | Source/gs/GSH_OpenGL/GSH_OpenGL.cpp:2155-2159 | a reseeded line-strip window emits one segment per further kick |
| Assembler.FirstTwoKicks | Source/gs/GSH_OpenGL/GSH_OpenGL.cpp:2110-2129 | the first two kicks after a PRIM write fill slots 2 and 1 and emit nothing |
| Primitives.MakeColorChannels | Source/gs/GSH_OpenGL/GSH_OpenGL.cpp:45-48 | `MakeColor` puts R in byte 0, G in byte 1, B in byte 2 and A in byte 3, each readable back |
| Primitives.MakeColorInjective | Source/gs/GSH_OpenGL/GSH_OpenGL.cpp:45-48 | two colours are equal exactly when all four channels are |
| Primitives.Emit | Source/gs/GSH_OpenGL/GSH_OpenGL.cpp:1548-1588 | a batch vertex is the slot position minus the primitive offset, with the given z, colour and fog |
| Primitives.PointVertices | Source/gs/GSH_OpenGL/GSH_OpenGL.cpp:1543-1568 | `Prim_Point` appends one vertex: slot 0 with its own z and colour and no fog |
| Primitives.LineVertices | Source/gs/GSH_OpenGL/GSH_OpenGL.cpp:1571-1615 | `Prim_Line` appends two vertices, slot 1 then slot 0, each with its own colour |
| Primitives.TriangleFog | Source/gs/GSH_OpenGL/GSH_OpenGL.cpp:1644-1653 | the fog numerator is 0xFF minus the slot's fog when PRIM enables fog, zero otherwise |
| Primitives.TriangleVertices | Source/gs/GSH_OpenGL/GSH_OpenGL.cpp:1618-1731 | `Prim_Triangle` appends slots 2, 1, 0; a flat-shaded triangle gives all three the colour of slot 0 (the last vertex), a Gouraud one keeps each slot's colour |
| Primitives.SpriteVertices | Source/gs/GSH_OpenGL/GSH_OpenGL.cpp:1734-1811 | `Prim_Sprite` appends six vertices forming two triangles over the rectangle's corners; all share the z and colour of slot 0 |
| ShaderCaps.BitOffsets | Source/gs/GSH_OpenGL/GSH_OpenGL.h:59-85 | each of the 25 fields sits at the bit offset given by the total width of the fields declared before it |
| ShaderCaps.WordBounds | Source/gs/GSH_OpenGL/GSH_OpenGL.h:59-92 | the fields through `padding1` fill the low 32 bits, the PSM fields with `padding2` the high 32 bits, and the whole descriptor fits 64 bits |
| ShaderCaps.KeyIsLowWord | Source/gs/GSH_OpenGL/GSH_OpenGL.cpp:661 | the `uint32` cast of the descriptor is exactly its low word |
| ShaderCaps.LowWordInjective | Source/gs/GSH_OpenGL/GSH_OpenGL.h:61-80 | two descriptors have the same low word if and only if they agree on every field through `padding1` |
| ShaderCaps.HighWordInjective | Source/gs/GSH_OpenGL/GSH_OpenGL.h:81-85 | two descriptors have the same high word if and only if they agree on the four PSM fields and `padding2` |
| ShaderCaps.KeyEqualIffSameLowFields | Source/gs/GSH_OpenGL/GSH_OpenGL.cpp:661 | two well-formed descriptors get the same cache key if and only if they agree on the low fields, whatever their PSM fields hold |
| ShaderCaps.PackInjective | Source/gs/GSH_OpenGL/GSH_OpenGL.h:59-92 | the full 64-bit value identifies a well-formed descriptor |
| ShaderCaps.IndexedSourceModes | Source/gs/GSH_OpenGL/GSH_OpenGL.h:87-90 | `isIndexedTextureSource()` holds exactly for source modes 2 (IDX4) and 3 (IDX8) |
| ShaderCaps.ClampAndSourceModesFit | Source/gs/GSH_OpenGL/GSH_OpenGL.h:224-238 | every texture clamp mode and texture source mode fits the 2-bit `texClampS`, `texClampT` and `texSourceMode` fields |
| CapsDerivation.CanRegionRepeatClampModeSimplified | Source/gs/GSH_OpenGL/GSH_OpenGL.cpp:1211-1224 | the loop answers true exactly when the minimum is one of the masks 1, 3, 7, ..., 0x1FF and shares no bit with the maximum |
| CapsDerivation.ShaderClampMode | Source/gs/GSH_OpenGL/GSH_OpenGL.cpp:36-42 | the shader clamp mode of a GS wrap mode fits 2 bits and is the standard mode exactly for REPEAT and CLAMP |
| CapsDerivation.AxisClampMode | Source/gs/GSH_OpenGL/GSH_OpenGL.cpp:1239-1243 | an axis gets the simple region-repeat mode exactly when it is in REGION_REPEAT with a simplifiable minimum and maximum, and the general region-repeat mode exactly when it is in REGION_REPEAT otherwise |
| CapsDerivation.TextureSourceMode | Source/gs/GSH_OpenGL/GSH_OpenGL.cpp:1233-1281 | a texture is sampled through IDX4 exactly for 4-bit indexed formats, through IDX8 exactly for the other indexed formats, and directly otherwise |
| CapsDerivation.TextureClampCaps | Source/gs/GSH_OpenGL/GSH_OpenGL.cpp:1235-1247 | when either axis uses a region mode both clamp fields get their axis mode; otherwise the descriptor is unchanged; no other field is touched |
| CapsDerivation.TextureSamplingCaps | Source/gs/GSH_OpenGL/GSH_OpenGL.cpp:1249-1286 | bilinear filtering, alpha, alpha expansion and black-is-transparent are each set exactly under their register condition and otherwise keep their value; no other field is touched |
| CapsDerivation.FillShaderCapsFromTexture | Source/gs/GSH_OpenGL/GSH_OpenGL.cpp:1226-1291 | the texture fields hold the source mode of TEX0's PSM, TEX0's PSM, CLUT PSM and function; only texture fields change and well-formedness is kept |
| CapsDerivation.FillShaderCapsFromFrame | Source/gs/GSH_OpenGL/GSH_OpenGL.cpp:1293-1297 | only `framePsm` changes, to FRAME's PSM |
| CapsDerivation.FillShaderCapsFromTestAndZbuf | Source/gs/GSH_OpenGL/GSH_OpenGL.cpp:1299-1344 | the alpha test is on exactly when TEST enables it and it is not the NEVER-with-a-mask form; depth test is ALWAYS when disabled; depth writes are on exactly when ZBUF does not mask them and the alpha test does not turn them off; the depth PSM gets the 0x30 bits |
| CapsDerivation.FillShaderCapsFromAlpha | Source/gs/GSH_OpenGL/GSH_OpenGL.cpp:1346-1353 | the four blend selectors are ALPHA's A, B, C and D; nothing else changes |
| CapsDerivation.ApplyPrimitiveFlags | Source/gs/GSH_OpenGL/GSH_OpenGL.cpp:738-749 | blending follows PRIM's ABE bit, fog is set when PRIM's FGE is, and the source mode is NONE exactly when PRIM disables texturing |
| CapsDerivation.DeriveShaderCaps | Source/gs/GSH_OpenGL/GSH_OpenGL.cpp:715-749 | the descriptor built from the context's registers is well formed and untextured exactly when PRIM disables texturing |
| CapsDerivation.DerivedPrimitiveFlags | Source/gs/GSH_OpenGL/GSH_OpenGL.cpp:734-744 | the derived descriptor follows PRIM's blend and fog bits and starts from zero paddings |
| CapsDerivation.MaskingAlphaTestReachesCaps | Source/gs/GSH_OpenGL/GSH_OpenGL.cpp:1308-1341 | an enabled NEVER alpha test with a non-KEEP fail mode switches the shader's alpha test off, and with FB_ONLY or RGB_ONLY also depth writes |
| CapsDerivation.FramePsmOnlyTouchesFramePsm | Source/gs/GSH_OpenGL/GSH_OpenGL.cpp:1293-1297 | changing FRAME changes the derived descriptor only in `framePsm` |
| CapsDerivation.AxisClampRange | Source/gs/GSH_OpenGL/GSH_OpenGL.cpp:1431-1445 | the clamp range passed to the shader: the minimum moves up by one for a simplified region repeat and stays otherwise; REGION_CLAMP ranges are not modelled |
| FragmentLogic.AlphaTestFail | Source/gs/GSH_OpenGL/GSH_OpenGL_Shader.cpp:707-743 | for the eight GS alpha methods the generated test fails exactly when the comparison of the fragment's alpha with AREF does not hold (NEVER always fails, ALWAYS never); any other method never fails |
| FragmentLogic.AlphaFailFlag | Source/gs/GSH_OpenGL/GSH_OpenGL_Shader.cpp:435-437 | a fragment fails the alpha test only when the program has one, and then exactly when its method's comparison does not hold |
| FragmentLogic.DepthTestFail | Source/gs/GSH_OpenGL/GSH_OpenGL_Shader.cpp:516-530 | the depth test fails exactly when the method's comparison with the stored depth does not hold: NEVER always, ALWAYS never, GEQUAL when smaller, GREATER when not larger |
| FragmentLogic.DepthTestIgnoresDestination | Source/gs/GSH_OpenGL/GSH_OpenGL_Shader.cpp:500-514 | for ALWAYS and NEVER the stored depth is not read: the outcome does not depend on it |
| FragmentLogic.DepthBitsOf | Source/gs/GSH_OpenGL/GSH_OpenGL_Shader.cpp:158-173 | the depth width is 32, 24 or 16 for the four Z formats (the format's pixel size) and 0 for anything else |
| FragmentLogic.FrameLayout | Source/gs/GSH_OpenGL/GSH_OpenGL_Shader.cpp:462-474 | the frame is addressed with the 32-bit page layout for CT32 and CT24, with the 16-bit layout for CT16 and CT16S, and not at all otherwise |
| FragmentLogic.DepthLayout | Source/gs/GSH_OpenGL/GSH_OpenGL_Shader.cpp:476-488 | the depth buffer uses the 32-bit layout for 32 and 24 bits, the 16-bit layout for 16 bits, and none otherwise |
| FragmentLogic.DepthLayoutOfFormat | Source/gs/GSH_OpenGL/GSH_OpenGL_Shader.cpp:158-173 | Z32 and Z24 depth buffers are addressed as 32-bit pages, Z16 and Z16S as 16-bit pages |
| FragmentLogic.DepthWriteValue | Source/gs/GSH_OpenGL/GSH_OpenGL_Shader.cpp:542-553 | a 16-bit depth buffer receives the depth truncated to its low 16 bits; the other widths are not given a value |
| FragmentLogic.FragmentWrites | Source/gs/GSH_OpenGL/GSH_OpenGL_Shader.cpp:435-564 | a fragment is discarded exactly when it fails a KEEP alpha test, and then writes nothing; otherwise depth is written exactly when depth writes are on, the depth test passes and an FB_ONLY alpha test did not fail, and colour exactly when the depth test passes and a ZB_ONLY alpha test did not fail |
| FragmentLogic.AlphaFailModes | Source/gs/GSH_OpenGL/GSH_OpenGL_Shader.cpp:435-603 | a fragment failing the alpha test: KEEP writes nothing, FB_ONLY colour only, ZB_ONLY depth only, RGB_ONLY both (its alpha restored) |
| FragmentLogic.PassingFragmentWrites | Source/gs/GSH_OpenGL/GSH_OpenGL_Shader.cpp:532-564 | a fragment passing both tests writes colour, and depth exactly when depth writes are on |
| FragmentLogic.DepthFailWritesNothing | Source/gs/GSH_OpenGL/GSH_OpenGL_Shader.cpp:532-564 | a fragment failing the depth test writes neither depth nor colour |
| FragmentLogic.ShadeWrites | Source/gs/GSH_OpenGL/GSH_OpenGL_Shader.cpp:435-564 | without an alpha test nothing is discarded; a NEVER depth test writes nothing; an ALWAYS depth test without alpha test writes colour and, when enabled, depth |
| FragmentLogic.PixelChannels | Source/gs/GSH_OpenGL/GSH_OpenGL_Shader.cpp:590-603 | each colour channel is taken from the destination exactly when its byte of the colour mask is zero; alpha also when an RGB_ONLY alpha test failed or the frame is CT24 |
| FragmentLogic.ChannelsFromFrameMask | Source/gs/GSH_OpenGL/GSH_OpenGL.cpp:1128 | with the colour mask set to the complement of FRAME's FBMSK, a channel keeps the destination exactly when its FBMSK byte is 0xFF |
| FragmentLogic.BlendABDValue | Source/gs/GSH_OpenGL/GSH_OpenGL_Shader.cpp:667-685 | blend selector 0 gives the fragment colour, 1 the destination colour, anything else zero |
| FragmentLogic.BlendCValue | Source/gs/GSH_OpenGL/GSH_OpenGL_Shader.cpp:687-705 | blend selector C 0 gives the fragment alpha, 1 the destination alpha, 2 the fixed alpha, anything else zero |
| FragmentLogic.BlendChannel | Source/gs/GSH_OpenGL/GSH_OpenGL_Shader.cpp:581-588 | without blending the fragment's own value is kept; with blending, equal A and B selectors, or the invalid C selector, leave exactly the D operand |
| FragmentLogic.StandardAlphaBlend | Source/gs/GSH_OpenGL/GSH_OpenGL_Shader.cpp:581-705 | the blend (Cs - Cd) * As * 2 + Cd is the usual source-over mix with the GS alpha scale (0x80 means 1.0) |
| GlState.GlStateBitsDistinct | Source/gs/GSH_OpenGL/GSH_OpenGL.h:515-528 | the eleven dirty-state flags are distinct single bits, all inside the mask of every flag |
| GlState.Invalidate | Source/gs/GSH_OpenGL/GSH_OpenGL.cpp:1199 | clearing a flag turns that bit off and leaves every other bit as it was |
| GlState.ValidateAll | Source/gs/GSH_OpenGL/GSH_OpenGL.cpp:1833-1932 | after a render pass has re-applied every dirty state, all eleven flags are set and bits outside them are unchanged |
| RendererSpec.ValidateAllIdempotent | Source/gs/GSH_OpenGL/GSH_OpenGL.cpp:1833-1932 | once a render pass has re-applied the dirty state, a second pass with nothing changed in between re-applies nothing |
| GlslAddress.PageWidth | Source/gs/GSH_OpenGL/GSH_OpenGL_Shader.cpp:877-910 | pages are 64 pixels wide for the 32- and 16-bit layouts and 128 for the 8- and 4-bit ones |
| GlslAddress.PageHeight | Source/gs/GSH_OpenGL/GSH_OpenGL_Shader.cpp:878-911 | page heights lie between 32 and 128 rows |
| GlslAddress.PixelBits | Source/gs/GSH_OpenGL/GSH_OpenGL_Shader.cpp:873-917 | each page layout's pixel is 32, 16, 8 or 4 bits |
| GlslAddress.PageCoversPageSize | Source/gs/GSH_OpenGL/GSH_OpenGL_Shader.cpp:873 | every layout's page holds exactly `c_pageSize` (8192) bytes |
| GlslAddress.PixelAddressInPage | Source/gs/GSH_OpenGL/GSH_OpenGL_Shader.cpp:875-917 | a pixel's address is the buffer base plus its page number times 8192 plus its in-page swizzle offset, which stays below 8192 |
| GlslAddress.PixelAddressInjective | Source/gs/GSH_OpenGL/GSH_OpenGL_Shader.cpp:875-917 | with a buffer width that is a whole number of pages and an injective swizzle table, distinct pixels of a row range get distinct addresses |
| GlslAddress.XferPixelPosition | Source/gs/GSH_OpenGL/GSH_OpenGL_Shader.cpp:1075-1080 | the n-th transferred pixel lands at column n mod RRW plus DSAX and row n div RRW plus DSAY, both wrapped to 2048; a zero RRW gives no position |
| GlslAddress.XferPositionsDistinct | Source/gs/GSH_OpenGL/GSH_OpenGL_Shader.cpp:1075-1080 | within one 2048-row window two different pixel indices land on different positions |
| GlslBitwise.And | Source/gs/GSH_OpenGL/GSH_OpenGL_Shader.cpp:19-40 | the shader's `and` loop, run on operands below 2^24, returns their bitwise AND; a negative first operand runs no iteration and returns 0 |
| GlslBitwise.Or | Source/gs/GSH_OpenGL/GSH_OpenGL_Shader.cpp:42-63 | the shader's `or` loop, run on operands below 2^24, returns their bitwise OR |
| GlslBitwise.ClampCoordinate | Source/gs/GSH_OpenGL/GSH_OpenGL_Shader.cpp:643-665 | standard mode leaves the coordinate alone; region clamp keeps it inside [min, max] and unchanged when already inside; region repeat keeps exactly the bits of (t AND min) OR max for t >= 0 and gives max for a negative t; simple region repeat lands in [max, max + min) for every t, as GLSL `mod` floors |
| GlslBitwise.RepeatBits | Source/gs/GSH_OpenGL/GSH_OpenGL_Shader.cpp:653-655 | a bit of (t AND min) OR max is set exactly when it is set in t and in min, or in max |
| GlslBitwise.SimpleRepeatMatchesRepeat | Source/gs/GSH_OpenGL/GSH_OpenGL_Shader.cpp:653-659 | for a simplifiable range, `mod(t, min + 1) + max` equals `(t AND min) OR max`: the simplified shader samples the same texel |
| GlslBitwise.NegativeCoordinateModesDiffer | Source/gs/GSH_OpenGL/GSH_OpenGL_Shader.cpp:653-659 | for a coordinate before the texture origin the two region-repeat programs disagree: with min 1 and max 0, coordinate -1 gives 0 under `and`/`or` and 1 under `mod` |
| GlslBitwise.RegionRepeatAxisCoordinate | Source/gs/GSH_OpenGL/GSH_OpenGL.cpp:1437-1445 | whichever of the two region-repeat programs an axis is given, with the range passed to it the clamped coordinate is (t AND min) OR max |
| GlslClut.ClutIndexBitsAgree | Source/gs/GSH_OpenGL/GSH_OpenGL_Shader.cpp:1391-1392 | the loader's bit expression that swaps bits 3 and 4 equals the arithmetic index permutation the model uses |
| GlslClut.ClutIndexBitsSwap | Source/gs/GSH_OpenGL/GSH_OpenGL_Shader.cpp:1392 | the loader's index keeps every bit except 3 and 4, and exchanges those two |
| GlslClut.ClutIndexInvolution | Source/gs/GSH_OpenGL/GSH_OpenGL_Shader.cpp:1392 | swapping bits 3 and 4 twice gives the index back, and stays below 256 |
| GlslClut.ClutIndexBijective | Source/gs/GSH_OpenGL/GSH_OpenGL_Shader.cpp:1391-1392 | the 256 invocations write 256 distinct palette slots |
| GlslClut.HalvesRecombine | Source/gs/GSH_OpenGL/GSH_OpenGL_Shader.cpp:1393-1394 | splitting a colour into its low and high 16 bits and joining them with `lo OR (hi << 16)` gives the colour back |
| GlslClut.StoreClut | Source/gs/GSH_OpenGL/GSH_OpenGL_Shader.cpp:1395-1396 | an `imageStore` into the palette image writes one texel and leaves all others alone |
| GlslClut.StoreHalves | Source/gs/GSH_OpenGL/GSH_OpenGL_Shader.cpp:1393-1396 | one invocation writes the low half at its slot and the high half 0x100 texels further, and nothing else |
| GlslClut.LoadClutEntry | Source/gs/GSH_OpenGL/GSH_OpenGL_Shader.cpp:1388-1396 | the invocation at (x, y) reads the 32-bit colour at its swizzled PSMCT32 address in a 64-pixel-wide buffer and stores its halves at slot `ClutIndex(x + 16y)` |
| GlslClut.InvocationEntry | Source/gs/GSH_OpenGL/GSH_OpenGL_Shader.cpp:1374-1391 | a 16 x 16 workgroup gives each invocation a distinct entry x + 16y below 256, from which x and y are recovered |
| GlslClut.InvocationColor | Source/gs/GSH_OpenGL/GSH_OpenGL_Shader.cpp:1388-1390 | the colour an invocation reads is the palette entry of its linear index |
| GlslClut.StoredInImage | Source/gs/GSH_OpenGL/GSH_OpenGL_Shader.cpp:1395-1396 | in a palette image of 0x200 texels an invocation's store leaves both halves in place and changes only its two texels |
| GlslClut.SampleStored | Source/gs/GSH_OpenGL/GSH_OpenGL_Shader.cpp:354-372 | sampling a slot whose halves hold a colour returns that colour |
| GlslClut.SampleOther | Source/gs/GSH_OpenGL/GSH_OpenGL_Shader.cpp:354-356 | a store into one slot does not change what another slot samples |
| GlslClut.ClutStoresDisjoint | Source/gs/GSH_OpenGL/GSH_OpenGL_Shader.cpp:1391-1396 | two different invocations write disjoint texels, so the order in which the workgroup runs does not matter |
| GlslClut.DispatchClutLoad | Source/gs/GSH_OpenGL/GSH_OpenGL.cpp:2412-2448 | dispatching the loader leaves every one of the 256 palette slots holding its swizzled entry from GS memory |
| GlslClut.LoadNextEntry | Source/gs/GSH_OpenGL/GSH_OpenGL_Shader.cpp:1388-1396 | running one more invocation on a palette loaded for the first i entries leaves it loaded for the first i + 1 |
| GlslClut.LoadKeepsPalette | Source/gs/GSH_OpenGL/GSH_OpenGL_Shader.cpp:1391-1396 | storing entry i in its own slot keeps the entries already loaded |
| GlslClut.ColorIndexT4 | Source/gs/GSH_OpenGL/GSH_OpenGL_Shader.cpp:369 | a 4-bit texel selects entry `CSA * 16 + pixel`: its high nibble is CSA and its low nibble the texel |
| GlslClut.SampleLoadedPalette | Source/gs/GSH_OpenGL/GSH_OpenGL_Shader.cpp:354-372 | after the load, looking up colour index v returns GS memory's palette entry `ClutIndex(v)` |
| GlslMemory.Coords | Source/gs/GSH_OpenGL/GSH_OpenGL_Shader.cpp:757-762 | a word index maps to texel (w mod 1024, w div 1024); the row is inside the 1024 x 1024 image exactly when the word is inside the 4 MiB of GS memory |
| GlslMemory.CoordsInjective | Source/gs/GSH_OpenGL/GSH_OpenGL_Shader.cpp:762 | distinct words map to distinct texels |
| GlslMemory.Shift16 | Source/gs/GSH_OpenGL/GSH_OpenGL_Shader.cpp:769-809 | a 16-bit access uses shift 0 or 16, so its field lies inside the word |
| GlslMemory.Shift8 | Source/gs/GSH_OpenGL/GSH_OpenGL_Shader.cpp:780-818 | an 8-bit access uses shift 0, 8, 16 or 24 |
| GlslMemory.Shift4 | Source/gs/GSH_OpenGL/GSH_OpenGL_Shader.cpp:791-827 | a 4-bit access lies inside its byte: low nibble for index 0, high nibble for index 1 |
| GlslMemory.Read16 | Source/gs/GSH_OpenGL/GSH_OpenGL_Shader.cpp:806-813 | a 16-bit read returns a value below 0x10000 |
| GlslMemory.Read8 | Source/gs/GSH_OpenGL/GSH_OpenGL_Shader.cpp:815-822 | an 8-bit read returns a value below 0x100 |
| GlslMemory.Read4 | Source/gs/GSH_OpenGL/GSH_OpenGL_Shader.cpp:824-831 | a 4-bit read returns a value below 0x10 |
| GlslMemory.MergeThenField | Source/gs/GSH_OpenGL/GSH_OpenGL_Shader.cpp:770-774 | clearing a field with the mask and OR-ing in a value that fits it stores exactly that value and keeps every other bit of the word |
| GlslMemory.DisjointHalves | Source/gs/GSH_OpenGL/GSH_OpenGL_Shader.cpp:766-775 | writing one half-word keeps the other half of the word |
| GlslMemory.SiblingNibbles | Source/gs/GSH_OpenGL/GSH_OpenGL_Shader.cpp:788-797 | writing one nibble keeps the other nibble of the same byte |
| GlslMemory.Write32 | Source/gs/GSH_OpenGL/GSH_OpenGL_Shader.cpp:759-764 | a 32-bit write stores the value in its word and changes no other texel; an address beyond GS memory changes nothing |
| GlslMemory.WriteField | Source/gs/GSH_OpenGL/GSH_OpenGL_Shader.cpp:773-796 | the atomic AND then OR leaves the word equal to the merge of its old value with the shifted value, and no other texel changes |
| GlslMemory.Write16 | Source/gs/GSH_OpenGL/GSH_OpenGL_Shader.cpp:766-775 | a 16-bit write merges into its word only; a value below 0x10000 is read back and the sibling half is kept |
| GlslMemory.Store16 | Source/gs/GSH_OpenGL/GSH_OpenGL_Shader.cpp:766-813 | after a 16-bit store, reading the same half returns the value and reading the other half returns what it held |
| GlslMemory.Write8 | Source/gs/GSH_OpenGL/GSH_OpenGL_Shader.cpp:777-786 | an 8-bit write merges into its word only; a value below 0x100 is read back and the other three bytes are kept |
| GlslMemory.Store8 | Source/gs/GSH_OpenGL/GSH_OpenGL_Shader.cpp:777-822 | after an 8-bit store the byte reads back and every other bit of the word is kept |
| GlslMemory.Write4 | Source/gs/GSH_OpenGL/GSH_OpenGL_Shader.cpp:788-797 | a 4-bit write merges into its word only; a value below 0x10 is read back and the sibling nibble is kept |
| GlslMemory.Store4 | Source/gs/GSH_OpenGL/GSH_OpenGL_Shader.cpp:788-831 | after a 4-bit store the nibble reads back and the other nibble of its byte is unchanged |
| GlslMemory.SiblingAddress | Source/gs/GSH_OpenGL/GSH_OpenGL_Shader.cpp:761-768 | flipping address bit 0 or 1 stays in the same word |
| GlslXfer.StreamWords | Source/gs/GSH_OpenGL/GSH_OpenGL.cpp:2246-2247 | the uploaded byte stream is seen by the shader as one 32-bit word per four bytes |
| GlslXfer.StreamWordAt | Source/gs/GSH_OpenGL/GSH_OpenGL.cpp:2246-2247 | word w of the storage buffer is bytes 4w to 4w+3 in little-endian order |
| GlslXfer.Stream16Pixel | Source/gs/GSH_OpenGL/GSH_OpenGL_Shader.cpp:1082-1087 | the i-th 16-bit pixel of the stream is bytes 2i and 2i+1, below 0x10000 |
| GlslXfer.Stream8Pixel | Source/gs/GSH_OpenGL/GSH_OpenGL_Shader.cpp:1089-1094 | the i-th 8-bit pixel is byte i |
| GlslXfer.Stream4Pixel | Source/gs/GSH_OpenGL/GSH_OpenGL_Shader.cpp:1096-1101 | the i-th 4-bit pixel is the low nibble of byte i/2 for even i, the high nibble for odd i |
| GlslXfer.Read16ReturnsPixel | Source/gs/GSH_OpenGL/GSH_OpenGL_Shader.cpp:1082-1087 | `XferStream_Read16` returns the i-th 16-bit pixel of the uploaded stream |
| GlslXfer.Read8ReturnsPixel | Source/gs/GSH_OpenGL/GSH_OpenGL_Shader.cpp:1089-1094 | `XferStream_Read8` returns the i-th byte of the uploaded stream |
| GlslXfer.XferStreamRead4AsWritten | Source/gs/GSH_OpenGL/GSH_OpenGL_Shader.cpp:1096-1101 | the shader's 4-bit read as written: word i/16, shift (i mod 16) * 4; for i mod 16 of 8 or more the shift reaches 32 and GLSL gives no defined value |
| GlslXfer.Read4AsWrittenReadsEarlierPixel | Source/gs/GSH_OpenGL/GSH_OpenGL_Shader.cpp:1096-1101 | where it is defined, the as-written read returns pixel i - 8 * (i / 16), an earlier pixel, instead of pixel i |
| GlslXfer.Read4AsWrittenMisreadsPixel16 | Source/gs/GSH_OpenGL/GSH_OpenGL_Shader.cpp:1096-1101 | a three-word stream on which pixel 16 is 2 but the as-written read returns 1, the value of pixel 8 |
| GlslXfer.Read4ReturnsPixel | Source/gs/GSH_OpenGL/GSH_OpenGL_Shader.cpp:1096-1101 | the corrected 4-bit read (word i/8, shift (i mod 8) * 4) returns the i-th nibble of the stream |
| GlslXfer.ParamWords | Source/gs/GSH_OpenGL/GSH_OpenGL.h:182-191 | the host's `XFERPARAMS` uploads as eight 32-bit words: pixel count, address, width, RRW, DSAX, DSAY and two paddings |
| GlslXfer.ParamsAsWrittenShifted | Source/gs/GSH_OpenGL/GSH_OpenGL_Shader.cpp:1060-1067 | the shader's uniform block as written has no `pixelCount` member, so it reads every parameter one word early: its address is the pixel count, its width the address, and so on |
| GlslXfer.ParamsAsWrittenMisplaceTransfer | Source/gs/GSH_OpenGL/GSH_OpenGL_Shader.cpp:1060-1067 | a 256-pixel transfer to address 0 with width 64 is written, as the shader reads it, at address 256 with a row width of 64 pixels |
| GlslXfer.ParamsRoundTrip | Source/gs/GSH_OpenGL/GSH_OpenGL.h:182-191 | a shader block laid out like the host struct reads back exactly the address, width, RRW, DSAX and DSAY the host uploaded |
| GlslXfer.XferTarget | Source/gs/GSH_OpenGL/GSH_OpenGL_Shader.cpp:1075-1123 | an invocation's destination lies inside the 2048 x 2048 transfer window |
| GlslXfer.XferPSMCT32 | Source/gs/GSH_OpenGL/GSH_OpenGL_Shader.cpp:1108-1126 | a PSMCT32 invocation writes its word of the stream at its swizzled address and changes no other texel |
| GlslXfer.XferPSMCT16 | Source/gs/GSH_OpenGL/GSH_OpenGL_Shader.cpp:1144-1162 | a PSMCT16 invocation stores its 16-bit pixel in its half-word and keeps the other half and every other texel |
| GlslXfer.XferPSMT8 | Source/gs/GSH_OpenGL/GSH_OpenGL_Shader.cpp:1180-1198 | a PSMT8 invocation stores its byte and keeps the rest of the word and every other texel |
| GlslXfer.XferPSMT4 | Source/gs/GSH_OpenGL/GSH_OpenGL_Shader.cpp:1216-1234 | a PSMT4 invocation stores its nibble, using nibble index `pixelIndex & 1`, and keeps everything else (corrected; as written: GlslXfer.XferStreamRead4AsWritten) |
| GlslXfer.XferPSMT8H | Source/gs/GSH_OpenGL/GSH_OpenGL_Shader.cpp:1252-1271 | a PSMT8H invocation stores its byte in the top byte (offset 3) of its linearly addressed 32-bit texel |
| GlslXfer.XferPSMT4H | Source/gs/GSH_OpenGL/GSH_OpenGL_Shader.cpp:1289-1345 | PSMT4HL and PSMT4HH invocations store their nibble in the low or high nibble of the top byte of their texel (corrected; as written: GlslXfer.XferStreamRead4AsWritten) |
| Presentation.ToU32 | Source/gs/GSH_OpenGL/GSH_OpenGL.cpp:227-235 | the `unsigned int` wrap of an integer: values in range are kept, negative 32-bit values gain 2^32 |
| Presentation.ToS32 | Source/gs/GSH_OpenGL/GSH_OpenGL.cpp:227-235 | the `static_cast<int>` of a 32-bit word is the signed value with the same bits |
| Presentation.HalfTowardZero | Source/gs/GSH_OpenGL/GSH_OpenGL.cpp:227-235 | C++ integer `/ 2` rounds toward zero, for negative differences too |
| Presentation.CurrentReadCircuit | Source/gs/GSH_OpenGL/GSH_OpenGL.cpp:621-653 | the read circuit is 1 exactly when PMODE enables only circuit 2, or both with DISPFB1 zero and DISPFB2 not; 0 otherwise |
| Presentation.DisplayWidth | Source/gs/GSH_OpenGL/GSH_OpenGL.cpp:151 | the displayed width is (DW + 1) divided by the magnification (MAGH + 1), rounded down |
| Presentation.DisplayHeight | Source/gs/GSH_OpenGL/GSH_OpenGL.cpp:152-155 | the displayed height is DH + 1, halved (rounded down) for interlaced frame mode |
| Presentation.OutputViewport | Source/gs/GSH_OpenGL/GSH_OpenGL.cpp:198-239 | FILL covers the window; ORIGINAL keeps the source size; FIT picks one of two candidates |
| Presentation.FitViewportInsideWindow | Source/gs/GSH_OpenGL/GSH_OpenGL.cpp:205-230 | when the products do not overflow, the FIT viewport lies inside the window, touches two opposite edges, and is centred (up to rounding) |
| Presentation.OriginalViewportCentred | Source/gs/GSH_OpenGL/GSH_OpenGL.cpp:232-238 | the ORIGINAL viewport has the source size and is centred on the window with offsets rounded toward zero, negative when the source is larger |
| RenderState.DepthBits | Source/gs/GSH_OpenGL/GSH_OpenGL.cpp:1078-1090 | the depth width used for the write mask is 16, 24 or 32 |
| RenderState.DepthWriteMask | Source/gs/GSH_OpenGL/GSH_OpenGL.cpp:1072-1094 | the depth mask is 0xFFFF for 16-bit, 0xFFFFFF for 24-bit and 0xFFFFFFFF for every other depth buffer |
| RenderState.ColorWriteMask | Source/gs/GSH_OpenGL/GSH_OpenGL.cpp:1105-1126 | a channel is written exactly when its FBMSK byte is zero and an enabled NEVER alpha test does not mask it: ZB_ONLY masks all four channels, RGB_ONLY only alpha |
| RenderState.FragmentColorMask | Source/gs/GSH_OpenGL/GSH_OpenGL.cpp:1128 | the shader's colour mask is the 32-bit complement of FBMSK |
| RenderState.ComplementBytes | Source/gs/GSH_OpenGL/GSH_OpenGL.cpp:1128 | each byte of the complement is 0xFF minus the byte of FBMSK |
| RenderState.ColorMaskAgreesWithFragmentMask | Source/gs/GSH_OpenGL/GSH_OpenGL.cpp:1105-1128 | a channel the fixed-function mask writes is fully enabled in the shader's mask; without the masking alpha test the two agree for every channel |
| RenderState.ScissorBox | Source/gs/GSH_OpenGL/GSH_OpenGL.cpp:1195-1198 | the scissor starts at (SCAX0, SCAY0) and ends at (SCAX1 + 1, SCAY1 + 1) |
| RenderState.ScissorBoxExtent | Source/gs/GSH_OpenGL/GSH_OpenGL.cpp:1195-1198 | the scissor is at most 2048 wide and high, and non-empty exactly when its corners are ordered |
| RenderState.MagFilterFor | Source/gs/GSH_OpenGL/GSH_OpenGL.cpp:1385-1393 | GL_LINEAR magnification exactly when MMAG is set |
| RenderState.MinFilterFor | Source/gs/GSH_OpenGL/GSH_OpenGL.cpp:1395-1410 | GL_LINEAR minification exactly for the LINEAR, LINEAR_MIPMAP_NEAREST and LINEAR_MIPMAP_LINEAR filters |
| RenderState.TextureFilters | Source/gs/GSH_OpenGL/GSH_OpenGL.cpp:1384-1460 | indexed textures are sampled with GL_NEAREST; others use the TEX1 filters, or GL_LINEAR for both when bilinear is forced |
| RenderState.IndexedFilteringMovesToShader | Source/gs/GSH_OpenGL/GSH_OpenGL.cpp:1249-1261 | when an indexed texture asks for filtering, the GL sampler stays nearest and the shader's bilinear flag is set instead |
| RenderState.NativeWrap | Source/gs/GSH_OpenGL/GSH_OpenGL.cpp:28-34 | GL_CLAMP_TO_EDGE exactly for the CLAMP wrap mode, GL_REPEAT otherwise |
| RenderState.ClampBounds | Source/gs/GSH_OpenGL/GSH_OpenGL.cpp:1418-1484 | the shader's clamp range is zero unless an axis uses a region mode, and then each axis gets its own range |
| RendererSpec.Initial | Source/gs/GSH_OpenGL/GSH_OpenGL.cpp:67-80 | a freshly initialised renderer has an empty batch, no draws, an invalid render state, no valid GL state, and satisfies the renderer invariant |
| RendererSpec.GetShaderFromCaps | Source/gs/GSH_OpenGL/GSH_OpenGL.cpp:659-711 | the returned program is the cache entry of the descriptor; a cached descriptor changes nothing; a new one is generated, inserted and clears the program flag; nothing else changes; the cache stays keyed by the full descriptor (corrected; as written: TruncatedKey.CachedProgramAsWritten) |
| RendererSpec.CachedProgramIsCaps | Source/gs/GSH_OpenGL/GSH_OpenGL.cpp:659-711 | with the cache keyed by the full descriptor, the program returned is the one generated for exactly that descriptor |
| RendererSpec.DrawModeFor | Source/gs/GSH_OpenGL/GSH_OpenGL.cpp:1943-1962 | points draw as GL_POINTS, lines and line strips as GL_LINES, triangles, strips, fans and sprites as GL_TRIANGLES |
| RendererSpec.DoRenderPass | Source/gs/GSH_OpenGL/GSH_OpenGL.cpp:1831-1967 | a render pass appends one draw of the batch with the current program and primitive mode, counts it, and leaves every dirty-state flag set; nothing else changes |
| RendererSpec.BindShader | Source/gs/GSH_OpenGL/GSH_OpenGL.cpp:1820-1825 | before drawing, the render state's program becomes the cached program of the current descriptor; only the shader cache, the handle and the program flag change |
| RendererSpec.FlushVertexBuffer | Source/gs/GSH_OpenGL/GSH_OpenGL.cpp:1814-1829 | an empty batch is left alone; otherwise the batch is drawn once and emptied; the front end and the rest of the render state are kept |
| RendererSpec.FlushDrawsBatch | Source/gs/GSH_OpenGL/GSH_OpenGL.cpp:1814-1829 | flushing a non-empty batch adds exactly one draw call, holding the batch's vertices in order, with the program of the current descriptor and the primitive's GL mode |
| RendererSpec.FlushKeepsValid | Source/gs/GSH_OpenGL/GSH_OpenGL.cpp:1814-1829 | flushing keeps the renderer invariant |
| RendererSpec.FlushIdempotent | Source/gs/GSH_OpenGL/GSH_OpenGL.cpp:1816 | flushing twice is the same as flushing once |
| RendererSpec.FlushDrawsWithCurrentProgram | Source/gs/GSH_OpenGL/GSH_OpenGL.cpp:1818-1826 | in a valid renderer the flushed batch is drawn with the program generated for the current descriptor |
| RendererSpec.SetupBlendingFunction | Source/gs/GSH_OpenGL/GSH_OpenGL.cpp:865-870 | ALPHA's FIX goes into the fragment parameters and their flag is cleared; nothing else changes |
| RendererSpec.SetupTestFunctions | Source/gs/GSH_OpenGL/GSH_OpenGL.cpp:1038-1046 | AREF goes into the fragment parameters, the depth test is on exactly when TEST enables it, and the two flags are cleared |
| RendererSpec.SetupDepthBuffer | Source/gs/GSH_OpenGL/GSH_OpenGL.cpp:1072-1094 | the fragment parameters' depth mask becomes the ZBUF format's write mask and the fragment-parameters state bit is cleared so the mask is uploaded before the next draw; nothing else changes |
| RendererSpec.InvalidateFramebufferBits | Source/gs/GSH_OpenGL/GSH_OpenGL.cpp:1126-1199 | framebuffer setup clears the colour-mask, fragment, framebuffer, viewport, vertex and scissor flags and no other |
| RendererSpec.FramebufferParams | Source/gs/GSH_OpenGL/GSH_OpenGL.cpp:1128-1132 | the fragment parameters get the complemented FBMSK, the frame and depth base pointers and the frame width for both buffers |
| RendererSpec.TargetFor | Source/gs/GSH_OpenGL/GSH_OpenGL.cpp:1122-1198 | the render target records the framebuffer, the depth buffer, a viewport of the framebuffer's size, the swizzle tables of both formats, the scissor box and the colour mask |
| RendererSpec.SetupFramebuffer | Source/gs/GSH_OpenGL/GSH_OpenGL.cpp:1096-1199 | a zero FRAME changes nothing; otherwise the framebuffer and depth buffer are found or created, `drawingToDepth` records whether FRAME's area is a known depth buffer, and the target, parameters and flags are set; the shader cache is untouched |
| RendererSpec.SetupFramebufferKeepsValid | Source/gs/GSH_OpenGL/GSH_OpenGL.cpp:1096-1199 | framebuffer setup keeps the renderer invariant |
| RendererSpec.InvalidateTextureBits | Source/gs/GSH_OpenGL/GSH_OpenGL.cpp:1363-1490 | texture setup clears the texture, vertex and fragment flags and no other |
| RendererSpec.ResetTexture | Source/gs/GSH_OpenGL/GSH_OpenGL.cpp:1357-1363 | texture setup starts with no textures bound, nearest filtering and clamp-to-edge wrapping |
| RendererSpec.TextureFor | Source/gs/GSH_OpenGL/GSH_OpenGL.cpp:1377-1467 | a textured draw binds TEX0's texture, a palette exactly for indexed formats, the filters and wraps of TEX1 and CLAMP, and the swizzle table of TEX0's format |
| RendererSpec.TextureParams | Source/gs/GSH_OpenGL/GSH_OpenGL.cpp:1481-1489 | the fragment parameters get the clamp ranges, TEX0's buffer pointer and width, and CSA masked to four bits |
| RendererSpec.SetupTexture | Source/gs/GSH_OpenGL/GSH_OpenGL.cpp:1355-1491 | with TEX0 zero or texturing off only the reset is applied and the texture flag is cleared; otherwise the texture state and parameters of TEX0, TEX1 and CLAMP are set |
| RendererSpec.SetupFogColor | Source/gs/GSH_OpenGL/GSH_OpenGL.cpp:1202-1209 | setting the fog colour clears the fragment flag and changes nothing else the model tracks |
| RendererSpec.ContextRegsOf | Source/gs/GSH_OpenGL/GSH_OpenGL.cpp:717-728 | the registers read are those of PRIM's context (TEST_1 or TEST_2, and so on), with the shared TEXA and FOGCOL |
| RendererSpec.ShaderStep | Source/gs/GSH_OpenGL/GSH_OpenGL.cpp:755-760 | exactly when the descriptor differs (or the render state is invalid) the batch is flushed and emptied; the descriptor is recorded and the rest of the render state kept; the same descriptor changes nothing; validity is preserved (corrected; as written: TruncatedKey.AdoptedCapsAsWritten) |
| RendererSpec.BlendStep | Source/gs/GSH_OpenGL/GSH_OpenGL.cpp:766-783 | a changed PRIM (or invalid state) flushes the batch, sets blend enable to PRIM's ABE bit and clears the blend state bit, changing nothing else; an unchanged PRIM changes nothing; the batch is drawn at most once |
| RendererSpec.AlphaStep | Source/gs/GSH_OpenGL/GSH_OpenGL.cpp:785-791 | a changed ALPHA (or invalid state) flushes the batch and applies `SetupBlendingFunction` to the flushed machine, so the fixed alpha follows ALPHA; an unchanged ALPHA changes nothing; the descriptor is kept |
| RendererSpec.TestStep | Source/gs/GSH_OpenGL/GSH_OpenGL.cpp:793-799 | a changed TEST (or invalid state) flushes the batch and applies `SetupTestFunctions`, so the alpha reference and depth-test enable follow TEST; an unchanged TEST changes nothing; the descriptor is kept |
| RendererSpec.DepthStep | Source/gs/GSH_OpenGL/GSH_OpenGL.cpp:801-808 | a changed ZBUF or TEST (or invalid state) flushes the batch and applies `SetupDepthBuffer`, so the depth mask follows ZBUF; otherwise nothing changes; the descriptor is kept |
| RendererSpec.FramebufferStep | Source/gs/GSH_OpenGL/GSH_OpenGL.cpp:810-820 | a changed FRAME, ZBUF, SCISSOR or TEST, or an invalidated target, flushes the batch and applies `SetupFramebuffer`, keeping every valid part of the flushed machine except the buffer caches; otherwise nothing changes; the descriptor is kept |
| RendererSpec.TextureStep | Source/gs/GSH_OpenGL/GSH_OpenGL.cpp:822-833 | a changed texture register or PRIM, or invalidated texture state, flushes the batch and applies `SetupTexture`; otherwise nothing changes; the descriptor is kept |
| RendererSpec.FogStep | Source/gs/GSH_OpenGL/GSH_OpenGL.cpp:835-841 | a changed FOGCOL (or invalid state) flushes the batch and applies `SetupFogColor`, clearing the fragment-parameters state bit; otherwise nothing changes; the descriptor is kept |
| RendererSpec.RecordContext | Source/gs/GSH_OpenGL/GSH_OpenGL.cpp:843-862 | the context's offsets are loaded, the render state is marked valid and the registers it was built from are recorded |
| RendererSpec.ApplyContext | Source/gs/GSH_OpenGL/GSH_OpenGL.cpp:755-862 | applying a context keeps the front end's registers and window |
| RendererSpec.SetRenderingContext | Source/gs/GSH_OpenGL/GSH_OpenGL.cpp:713-863 | after the call the render state is valid, records the context's registers and the primitive offset; the front end is otherwise unchanged |
| RendererSpec.ApplyContextDrawsBatchOnce | Source/gs/GSH_OpenGL/GSH_OpenGL.cpp:755-841 | however many of the state checks fire, the pending batch is drawn at most once |
| RendererSpec.SetRenderingContextDrawsBatchOnce | Source/gs/GSH_OpenGL/GSH_OpenGL.cpp:713-863 | selecting a rendering context draws the pending batch at most once |
| RendererSpec.SetRenderingContextUnchanged | Source/gs/GSH_OpenGL/GSH_OpenGL.cpp:755-841 | when nothing changed since the last call, selecting the context only reloads the offset: no flush, no setup |
| RendererSpec.StepKeepsValid | Source/gs/GSH_OpenGL/GSH_OpenGL.cpp:766-841 | each state check, flushing or not, keeps the renderer invariant |
| RendererSpec.FramebufferStepKeepsValid | Source/gs/GSH_OpenGL/GSH_OpenGL.cpp:810-820 | the framebuffer check keeps the renderer invariant |
| RendererSpec.SetRenderingContextSelectsShader | Source/gs/GSH_OpenGL/GSH_OpenGL.cpp:734-760 | after selecting a context the current descriptor is the one derived from PRIM and the context's registers |
| RendererSpec.ApplyContextKeepsValid | Source/gs/GSH_OpenGL/GSH_OpenGL.cpp:755-862 | applying a context keeps the renderer invariant |
| RendererSpec.SetRenderingContextKeepsValid | Source/gs/GSH_OpenGL/GSH_OpenGL.cpp:713-863 | selecting a context keeps the renderer invariant |
| RendererSpec.KickVertex | Source/gs/GSH_OpenGL/GSH_OpenGL.cpp:2110-2127 | a kicked vertex takes RGBAQ, UV and ST from the registers; an XYZF kick splits the value into a 56-bit position and the fog byte, an XYZ kick keeps the whole value and takes fog from FOG |
| RendererSpec.PrimitiveVertices | Source/gs/GSH_OpenGL/GSH_OpenGL.cpp:2145-2179 | a completed primitive emits the vertices of its type's `Prim_*` routine; the reserved type emits nothing |
| RendererSpec.PrimitiveFollowsEmissionOrder | Source/gs/GSH_OpenGL/GSH_OpenGL.cpp:1543-1731 | the emitted vertices are the window slots in emission order, offset by the primitive offset, with their own z |
| RendererSpec.IsDrawingKick | Source/gs/GSH_OpenGL/GSH_OpenGL.cpp:2105-2108 | a kick draws exactly when drawing is enabled and the register is XYZ2 or XYZF2 |
| RendererSpec.PrimitiveModeOf | Source/gs/GSH_OpenGL/GSH_OpenGL.cpp:2131-2138 | with PRMODECONT bit 0 set the primitive attributes come from PRIM, otherwise from PRMODE |
| RendererSpec.DrawPrimitive | Source/gs/GSH_OpenGL/GSH_OpenGL.cpp:2140-2179 | a drawing completion selects the rendering context and appends the primitive's vertices to the batch |
| RendererSpec.CompletePrimitive | Source/gs/GSH_OpenGL/GSH_OpenGL.cpp:2129-2179 | a completed window is reseeded for its type; a non-drawing completion leaves the batch, draws, render state and shader cache alone; a drawing one appends the primitive after selecting the context |
| RendererSpec.VertexKick | Source/gs/GSH_OpenGL/GSH_OpenGL.cpp:2101-2186 | a kick keeps the registers and the window shape; with a zero countdown it changes nothing |
| RendererSpec.KickFollowsAssembler | Source/gs/GSH_OpenGL/GSH_OpenGL.cpp:2101-2179 | the renderer's window after a kick is the assembler's window step |
| RendererSpec.NonDrawingKickAppendsNothing | Source/gs/GSH_OpenGL/GSH_OpenGL.cpp:2105-2179 | a kick that does not complete a primitive, or is not a drawing kick, leaves the batch, draws, render state and shader cache alone |
| RendererSpec.LastKickCompletes | Source/gs/GSH_OpenGL/GSH_OpenGL.cpp:2110-2129 | the kick that brings the countdown to zero stores the vertex in slot 0 and completes the primitive |
| RendererSpec.DrawnPrimitiveFollowsEmission | Source/gs/GSH_OpenGL/GSH_OpenGL.cpp:2140-2179 | a drawn primitive appends its window slots in emission order after a possibly flushed batch |
| RendererSpec.DrawingKickAppendsPrimitive | Source/gs/GSH_OpenGL/GSH_OpenGL.cpp:2101-2179 | a drawing kick that completes a primitive emits exactly one primitive from the updated window, and completes it |
| RendererSpec.CompletePrimitiveKeepsValid | Source/gs/GSH_OpenGL/GSH_OpenGL.cpp:2129-2179 | completing a primitive keeps the renderer invariant |
| RendererSpec.VertexKickKeepsValid | Source/gs/GSH_OpenGL/GSH_OpenGL.cpp:2101-2186 | every kick keeps the renderer invariant |
| RendererSpec.SetPrimitiveType | Source/gs/GSH_OpenGL/GSH_OpenGL.cpp:2063-2089 | a PRIM write sets the type and its countdown; a different type flushes the batch first, the same type does not |
| RendererSpec.WriteRegister | Source/gs/GSH_OpenGL/GSH_OpenGL.cpp:2057-2099 | a register write stores the value; PRIM sets the type and countdown, flushing when the type changes; XYZ registers kick a vertex; every other register changes nothing else |
| RendererSpec.WriteRegisterKeepsValid | Source/gs/GSH_OpenGL/GSH_OpenGL.cpp:2057-2099 | every register write keeps the renderer invariant |
| RendererSpec.Reset | Source/gs/GSH_OpenGL/GSH_OpenGL.cpp:113-125 | a reset empties the framebuffer and depth-buffer lists and the batch, invalidates the render state and GL state, clears `drawingToDepth` and sets the reserved primitive type; the shader cache and preferences are kept |
| RendererSpec.NotifyPreferencesChanged | Source/gs/GSH_OpenGL/GSH_OpenGL.cpp:356-364 | a preferences change reloads the bilinear preference and empties the framebuffer and depth-buffer lists, nothing else |
| RendererSpec.DisplayedFb | Source/gs/GSH_OpenGL/GSH_OpenGL.cpp:621-653 | the displayed frame comes from DISPFB1 when circuit 1 is read and from DISPFB2 when circuit 2 is |
| RendererSpec.Flip | Source/gs/GSH_OpenGL/GSH_OpenGL.cpp:127-185 | a flip flushes the batch, invalidates the render state and all GL state, and finds or creates the displayed framebuffer |
| RendererSpec.FlipKeepsValid | Source/gs/GSH_OpenGL/GSH_OpenGL.cpp:127-185 | a flip keeps the renderer invariant |
| RendererSpec.HostToLocal | Source/gs/GSH_OpenGL/GSH_OpenGL.cpp:2188-2278 | a host-to-local transfer flushes, invalidates the texture and framebuffer state and clears the program and texture flags |
| RendererSpec.HostToLocalDispatch | Source/gs/GSH_OpenGL/GSH_OpenGL.cpp:2206-2241 | the transfer runs exactly for the seven supported destination formats, with the pixel count of the staged bytes and enough work groups to cover it |
| RendererSpec.ClutTransfer | Source/gs/GSH_OpenGL/GSH_OpenGL.cpp:2412-2442 | a CLUT load flushes, invalidates the texture state and clears the program and texture flags |
| RendererSpec.LocalToLocal | Source/gs/GSH_OpenGL/GSH_OpenGL.cpp:2375-2410 | a local copy flushes and invalidates the render state exactly when both the source and destination framebuffers are known; otherwise nothing changes |
| RendererSpec.LocalToHostSource | Source/gs/GSH_OpenGL/GSH_OpenGL.cpp:2343-2346 | the read-back source is a PSMCT32 framebuffer at address 0, and none is found only when no such framebuffer exists |
| RendererSpec.LocalToHost | Source/gs/GSH_OpenGL/GSH_OpenGL.cpp:2327-2372 | read-back flushes and invalidates the render state only for the supported 32 x 32 PSMCT32 transfer from address 0 with a matching framebuffer; otherwise nothing changes |
| Renderer.FindIf | Source/gs/GSH_OpenGL/GSH_OpenGL.cpp:1495-1509 | the linear scan returns the index of the first entry satisfying the predicate, or none when no entry does |
| Renderer.GsRenderer.constructor | Source/gs/GSH_OpenGL/GSH_OpenGL.cpp:67-80 | a new renderer's abstract state is the initial one, its three-slot vertex window is freshly allocated and the invariant holds |
| Renderer.GsRenderer.DoRenderPass | Source/gs/GSH_OpenGL/GSH_OpenGL.cpp:1831-1967 | the method takes the renderer's abstract state to `RendererSpec.DoRenderPass` of the old state |
| Renderer.GsRenderer.GetShaderFromCaps | Source/gs/GSH_OpenGL/GSH_OpenGL.cpp:659-711 | the method takes the renderer's abstract state to `RendererSpec.GetShaderFromCaps` of the old state, and the program returned is the one `RendererSpec.GetShaderFromCaps` returns |
| Renderer.GsRenderer.BindShader | Source/gs/GSH_OpenGL/GSH_OpenGL.cpp:1820-1825 | the method takes the renderer's abstract state to `RendererSpec.BindShader` of the old state |
| Renderer.GsRenderer.FlushVertexBuffer | Source/gs/GSH_OpenGL/GSH_OpenGL.cpp:1814-1829 | the method takes the renderer's abstract state to `RendererSpec.FlushVertexBuffer` of the old state |
| Renderer.GsRenderer.SetupBlendingFunction | Source/gs/GSH_OpenGL/GSH_OpenGL.cpp:865-870 | the method takes the renderer's abstract state to `RendererSpec.SetupBlendingFunction` of the old state |
| Renderer.GsRenderer.SetupTestFunctions | Source/gs/GSH_OpenGL/GSH_OpenGL.cpp:1038-1046 | the method takes the renderer's abstract state to `RendererSpec.SetupTestFunctions` of the old state |
| Renderer.GsRenderer.SetupDepthBuffer | Source/gs/GSH_OpenGL/GSH_OpenGL.cpp:1072-1094 | the method takes the renderer's abstract state to `RendererSpec.SetupDepthBuffer` of the old state |
| Renderer.GsRenderer.SetupFramebuffer | Source/gs/GSH_OpenGL/GSH_OpenGL.cpp:1096-1199 | the method takes the renderer's abstract state to `RendererSpec.SetupFramebuffer` of the old state |
| Renderer.GsRenderer.SetupTexture | Source/gs/GSH_OpenGL/GSH_OpenGL.cpp:1355-1491 | the method takes the renderer's abstract state to `RendererSpec.SetupTexture` of the old state |
| Renderer.GsRenderer.SetupFogColor | Source/gs/GSH_OpenGL/GSH_OpenGL.cpp:1202-1209 | the method takes the renderer's abstract state to `RendererSpec.SetupFogColor` of the old state |
| Renderer.GsRenderer.ShaderStep | Source/gs/GSH_OpenGL/GSH_OpenGL.cpp:755-760 | the method takes the renderer's abstract state to `RendererSpec.ShaderStep` of the old state |
| Renderer.GsRenderer.BlendStep | Source/gs/GSH_OpenGL/GSH_OpenGL.cpp:766-783 | the method takes the renderer's abstract state to `RendererSpec.BlendStep` of the old state |
| Renderer.GsRenderer.AlphaStep | Source/gs/GSH_OpenGL/GSH_OpenGL.cpp:785-791 | the method takes the renderer's abstract state to `RendererSpec.AlphaStep` of the old state |
| Renderer.GsRenderer.TestStep | Source/gs/GSH_OpenGL/GSH_OpenGL.cpp:793-799 | the method takes the renderer's abstract state to `RendererSpec.TestStep` of the old state |
| Renderer.GsRenderer.DepthStep | Source/gs/GSH_OpenGL/GSH_OpenGL.cpp:801-808 | the method takes the renderer's abstract state to `RendererSpec.DepthStep` of the old state |
| Renderer.GsRenderer.FramebufferStep | Source/gs/GSH_OpenGL/GSH_OpenGL.cpp:810-820 | the method takes the renderer's abstract state to `RendererSpec.FramebufferStep` of the old state |
| Renderer.GsRenderer.TextureStep | Source/gs/GSH_OpenGL/GSH_OpenGL.cpp:822-833 | the method takes the renderer's abstract state to `RendererSpec.TextureStep` of the old state |
| Renderer.GsRenderer.FogStep | Source/gs/GSH_OpenGL/GSH_OpenGL.cpp:835-841 | the method takes the renderer's abstract state to `RendererSpec.FogStep` of the old state |
| Renderer.GsRenderer.ApplyContext | Source/gs/GSH_OpenGL/GSH_OpenGL.cpp:755-862 | the method takes the renderer's abstract state to `RendererSpec.ApplyContext` of the old state |
| Renderer.GsRenderer.SetRenderingContext | Source/gs/GSH_OpenGL/GSH_OpenGL.cpp:713-863 | the method takes the renderer's abstract state to `RendererSpec.SetRenderingContext` of the old state |
| Renderer.GsRenderer.RecordContext | Source/gs/GSH_OpenGL/GSH_OpenGL.cpp:843-862 | the method takes the renderer's abstract state to `RendererSpec.RecordContext` of the old state |
| Renderer.GsRenderer.DrawPrimitive | Source/gs/GSH_OpenGL/GSH_OpenGL.cpp:2140-2179 | the method takes the renderer's abstract state to `RendererSpec.DrawPrimitive` of the old state |
| Renderer.GsRenderer.CompletePrimitive | Source/gs/GSH_OpenGL/GSH_OpenGL.cpp:2129-2179 | the method takes the renderer's abstract state to `RendererSpec.CompletePrimitive` of the old state |
| Renderer.GsRenderer.VertexKick | Source/gs/GSH_OpenGL/GSH_OpenGL.cpp:2101-2186 | the method takes the renderer's abstract state to `RendererSpec.VertexKick` of the old state |
| Renderer.GsRenderer.SetPrimitiveType | Source/gs/GSH_OpenGL/GSH_OpenGL.cpp:2063-2089 | the method takes the renderer's abstract state to `RendererSpec.SetPrimitiveType` of the old state |
| Renderer.GsRenderer.WriteRegister | Source/gs/GSH_OpenGL/GSH_OpenGL.cpp:2057-2099 | the method takes the renderer's abstract state to `RendererSpec.WriteRegister` of the old state, and the invariant is kept |
| Renderer.GsRenderer.Reset | Source/gs/GSH_OpenGL/GSH_OpenGL.cpp:113-125 | the method takes the renderer's abstract state to `RendererSpec.Reset` of the old state |
| Renderer.GsRenderer.NotifyPreferencesChanged | Source/gs/GSH_OpenGL/GSH_OpenGL.cpp:356-364 | the method takes the renderer's abstract state to `RendererSpec.NotifyPreferencesChanged` of the old state |
| Renderer.GsRenderer.Flip | Source/gs/GSH_OpenGL/GSH_OpenGL.cpp:127-185 | the method takes the renderer's abstract state to `RendererSpec.Flip` of the old state, and the framebuffer shown is the one `RendererSpec.Flip` selects |
| Renderer.GsRenderer.HostToLocal | Source/gs/GSH_OpenGL/GSH_OpenGL.cpp:2188-2278 | the method takes the renderer's abstract state to `RendererSpec.HostToLocal` of the old state |
| Renderer.GsRenderer.ClutTransfer | Source/gs/GSH_OpenGL/GSH_OpenGL.cpp:2412-2442 | the method takes the renderer's abstract state to `RendererSpec.ClutTransfer` of the old state |
| Renderer.GsRenderer.LocalToLocal | Source/gs/GSH_OpenGL/GSH_OpenGL.cpp:2375-2410 | the method takes the renderer's abstract state to `RendererSpec.LocalToLocal` of the old state |
| Renderer.GsRenderer.LocalToHost | Source/gs/GSH_OpenGL/GSH_OpenGL.cpp:2327-2372 | the method takes the renderer's abstract state to `RendererSpec.LocalToHost` of the old state |
| Renderer.GsRenderer.FindFramebufferIndex | Source/gs/GSH_OpenGL/GSH_OpenGL.cpp:1493-1503 | the index found in the framebuffer list is the one `ResourceCaches.FindFramebuffer` specifies |
| Renderer.GsRenderer.FindDepthbufferIndex | Source/gs/GSH_OpenGL/GSH_OpenGL.cpp:1505-1513 | the index found in the depth-buffer list is the one `ResourceCaches.FindDepthbuffer` specifies |
| Renderer.GsRenderer.EnsureFramebufferIn | Source/gs/GSH_OpenGL/GSH_OpenGL.cpp:1142-1149 | the framebuffer list and the buffer returned are those of `ResourceCaches.EnsureFramebuffer`; nothing else in the state changes |
| Renderer.GsRenderer.EnsureDepthbufferIn | Source/gs/GSH_OpenGL/GSH_OpenGL.cpp:1153-1158 | the depth-buffer list and the buffer returned are those of `ResourceCaches.EnsureDepthbuffer`; nothing else in the state changes |
| Renderer.GsRenderer.EnsureBuffersIn | Source/gs/GSH_OpenGL/GSH_OpenGL.cpp:1142-1158 | the framebuffer is found or created first, then the depth buffer, as the two cache functions specify; only the two lists change |
| Renderer.GsRenderer.SelectTarget | Source/gs/GSH_OpenGL/GSH_OpenGL.cpp:1122-1199 | the render target, fragment parameters and draw-to-depth flag are replaced and exactly the framebuffer-related state bits are cleared |
| Renderer.GsRenderer.BindTexture | Source/gs/GSH_OpenGL/GSH_OpenGL.cpp:1465-1490 | the texture binding, fragment parameters and state bits are replaced and nothing else changes |
| Renderer.GsRenderer.ReseedWindow | Source/gs/GSH_OpenGL/GSH_OpenGL.cpp:2145-2179 | the vertex window after a completed primitive is `Assembler.Reseed` of the primitive type and the old window |
| Renderer.GsRenderer.StoreVertex | Source/gs/GSH_OpenGL/GSH_OpenGL.cpp:2110-2127 | the array-backed vertex window after a kick is `Assembler.Store` of the old window and the vertex; only the window changes |
| Renderer.GsRenderer.AppendPrimitive | Source/gs/GSH_OpenGL/GSH_OpenGL.cpp:2145-2179 | the batch grows by exactly the vertices `RendererSpec.PrimitiveVertices` emits for the current type and window |
| Renderer.GsRenderer.ClearDrawState | Source/gs/GSH_OpenGL/GSH_OpenGL.cpp:113-125 | the batch is emptied, the render state invalidated, all GL state bits cleared and draw-to-depth reset; nothing else changes |
| ResourceCaches.FindFirst | Source/gs/GSH_OpenGL/GSH_OpenGL.cpp:1493-1513 | the index returned is the first whose entry satisfies the predicate; none is returned exactly when no entry does |
| ResourceCaches.FindFramebuffer | Source/gs/GSH_OpenGL/GSH_OpenGL.cpp:1493-1503 | the framebuffer found is the first with FRAME's base pointer, storage mode and width; none only when no cached framebuffer has all three |
| ResourceCaches.EnsureFramebuffer | Source/gs/GSH_OpenGL/GSH_OpenGL.cpp:1142-1149 | the framebuffer returned has FRAME's identity; a hit leaves the list as it was and returns the cached entry, a miss appends one new 1024-line framebuffer |
| ResourceCaches.EnsureFramebufferKeepsDistinct | Source/gs/GSH_OpenGL/GSH_OpenGL.cpp:1142-1149 | find-or-create never adds a second framebuffer with an identity already cached |
| ResourceCaches.EnsureFramebufferThenFindHits | Source/gs/GSH_OpenGL/GSH_OpenGL.cpp:1142-1149 | a second find-or-create with the same FRAME hits the entry the first one returned and changes nothing |
| ResourceCaches.FindDepthbuffer | Source/gs/GSH_OpenGL/GSH_OpenGL.cpp:1505-1513 | the depth buffer found is the first with ZBUF's base pointer and FRAME's width (its format is not compared); none only when no entry matches |
| ResourceCaches.EnsureDepthbuffer | Source/gs/GSH_OpenGL/GSH_OpenGL.cpp:1153-1158 | the depth buffer returned matches ZBUF and FRAME; a hit keeps the list, a miss appends one new depth buffer in ZBUF's format |
| ResourceCaches.EnsureDepthbufferKeepsDistinct | Source/gs/GSH_OpenGL/GSH_OpenGL.cpp:1153-1158 | find-or-create never adds a second depth buffer with a cached base pointer and width |
| ResourceCaches.FindDisplayFramebuffer | Source/gs/GSH_OpenGL/GSH_OpenGL.cpp:156-169 | the framebuffer presented is the first with DISPFB's base pointer and width and a format of the same bit depth; none only when none matches |
| ResourceCaches.EnsureDisplayFramebuffer | Source/gs/GSH_OpenGL/GSH_OpenGL.cpp:156-176 | a hit keeps the list and presents the cached entry; a miss appends and presents a new framebuffer in DISPFB's format unless the width is zero, when nothing is presented |
| ResourceCaches.EnsureDisplayFramebufferKeepsDistinct | Source/gs/GSH_OpenGL/GSH_OpenGL.cpp:156-176 | the flip's find-or-create keeps the framebuffer list free of entries `FindFramebuffer` could not tell apart |
| ResourceCaches.FindTransferFramebuffer | Source/gs/GSH_OpenGL/GSH_OpenGL.cpp:2378-2387 | the framebuffer a local copy uses is the first with the given base pointer and width; none only when no entry matches |
| Transfer.SwizzleTableFor | Source/gs/GSH_OpenGL/GSH_OpenGL.cpp:1515-1537 | PSMCT32, PSMCT24, PSMT8H, PSMT4HL and PSMT4HH share the PSMCT32 table; PSMCT16, PSMCT16S, PSMT8 and PSMT4 each have their own; no other format has one |
| Transfer.XferPixelCount | Source/gs/GSH_OpenGL/GSH_OpenGL.cpp:2202-2239 | a pixel count exists exactly for the seven host-to-local formats, and (short of 32-bit wrap-around) it is the number of whole pixels the staged bytes hold |
| Transfer.XferWorkUnits | Source/gs/GSH_OpenGL/GSH_OpenGL.cpp:2241 | the work-group count is the ceiling of the pixel count over 1024, and zero when the 32-bit addition wraps |
| Transfer.HostTransferFormatsHaveSwizzle | Source/gs/GSH_OpenGL/GSH_OpenGL.cpp:2204-2239 | every host-to-local destination format has a swizzle table |
| TruncatedKey.CachedProgramAsWritten | Source/gs/GSH_OpenGL/GSH_OpenGL.cpp:659-711 | the cache as written, keyed by the low 32 bits of the descriptor: the program returned is the entry under that key; a miss stores the descriptor given |
| TruncatedKey.AdoptedCapsAsWritten | Source/gs/GSH_OpenGL/GSH_OpenGL.cpp:755-760 | the shader-change test as written keeps the current descriptor exactly when the render state is valid and the low 32 bits agree |
| TruncatedKey.LowFieldsConflated | Source/gs/GSH_OpenGL/GSH_OpenGL.cpp:659-661 | two well-formed descriptors differing only above bit 31 share a cached program and the second never replaces the first |
| TruncatedKey.TruncatedKeyServesStaleProgram | Source/gs/GSH_OpenGL/GSH_OpenGL.cpp:755-760 | two draws whose FRAME storage modes differ derive different descriptors with the same 32-bit key, so the second is served the first's program |
| TruncatedKey.Ct32AndCt16Frames | Source/gs/GSH_OpenGL/GSH_OpenGL.cpp:736 | FRAME values 0 and 0x2000000 have the storage modes PSMCT32 and PSMCT16 |

## Left out

- OpenGL calls (texture, framebuffer and buffer creation, blits, uniform uploads, `glDispatchCompute`, program compilation and linking) have no visible semantics. They are opaque commands: a draw call is recorded with its program, mode and vertices, and a dispatch is described by its pixel and work-group counts.
- Floating point is not modelled. This covers `MakeLinearZOrtho`, the fog factors and the UV/ST/Q division in `Prim_*`, the texture matrix, the REGION_CLAMP scale ratios, the fog colour value, `combineColors`, the blend equation itself and the `Vec4ToPSM*`/`PSM*ToVec4` packing. Vertex positions are exact 1/16-pixel integers; colours in the fragment logic are described by where each channel comes from.
- GlslBitwise.SimpleRepeatMatchesRepeat: stated for non-negative coordinates only; before the texture origin `and` returns 0 while `mod` floors, so the two programs sample different texels there (`GlslBitwise.NegativeCoordinateModesDiffer`).
- GlslBitwise.RegionRepeatAxisCoordinate: stated for non-negative coordinates only, for the same reason.
- CapsDerivation.AxisClampRange: returns no integer range for REGION_CLAMP, because the range the shader gets there is scaled by floating-point texture-size ratios.
- Blend operands are modelled by which operand the generator selects (`BlendABDValue`, `BlendCValue`); the mixing arithmetic `(A - B) * C + D` runs in floating point and is left out.
- Alpha and depth values reach the test comparators as integers. The normalised-float conversions of the emitted code are not modelled.
- Concurrency is not modelled: the register mutex taken by `FlipImpl` and `GetCurrentReadCircuit`, the mailbox call of `LoadState`, and the fragment-shader interlock around memory writes.
- The CLUT loader runs its 256 invocations in one sequential order. `GlslClut.ClutStoresDisjoint` shows that no two invocations write the same slot, so every order gives the same image.
- GlslClut.ClutIndex: defined arithmetically on slot numbers. `ClutIndexBitsAgree` ties it to the emitted bit expression on `bv32`.
- The CLUT image size (`CLUTENTRYCOUNT`) is declared elsewhere in the repository. The CLUT contracts hold for any image of at least 0x200 entries.
- The swizzle tables (`CGsPixelFormats`) are not part of this model. `GlslAddress` takes the table as a function parameter with its range and injectivity as predicates, and `Transfer.SwizzleTableFor` names the table a format uses without its contents.
- The GS register decoders (`GSHandler.h`) are not part of this model. `GsRegs` defines the fields the renderer reads at their hardware bit positions; `GetFramebufferBitDepth` is a parameter of the flip.
- GlslMemory.Read16: its own contract only bounds the field; the value it returns is stated by the write round-trip lemmas `Store16` and `Write16`.
- GlslMemory.Read8: its own contract only bounds the field; the value is stated by `Store8` and `Write8`.
- GlslMemory.Read4: its own contract only bounds the field; the value is stated by `Store4` and `Write4`.
- CapsDerivation.DeriveShaderCaps: its own contract states well-formedness and the untextured case only. The field values are stated by the `FillShaderCapsFrom*` members it composes and by `DerivedPrimitiveFlags`, `MaskingAlphaTestReachesCaps` and `FramePsmOnlyTouchesFramePsm`.
- FragmentLogic.DepthWriteValue: gives no value for 32-bit depth, because the emitted 32-bit write passes none. For 24-bit depth the generator reaches `assert(false)` in both the depth read and the depth write, so no value is given there either.
- The transfer programs do not check `pixelIndex < pixelCount`; the model states each invocation's effect for the index it is given, so the extra invocations of the last work group are outside it.
- The PSMT8H, PSMT4HL and PSMT4HH transfer programs address the texel linearly (`g_bufAddress + (y * width + x) * 4`, then byte 3) and do not use the swizzle table bound for them, which the model follows. Whether the GS stores these formats unswizzled is not part of this model.
- RendererSpec.LocalToHost: models the flush and invalidation of a read-back but not the pixel data written back to the host buffer (a `glReadPixels` read-back).
- Read-back and presentation I/O is not modelled: `ReadFramebuffer`, `GetScreenshot`, `CopyToFb` and the present program. The present program hard-codes a 512 x 448 PSMCT16 output and its definition does not match its declaration.
- Code compiled out with `#if 0` is not modelled. This includes the blend table, the `DrawToDepth` body and the shader's indexed filtering. `PopulateFramebuffer` and `CommitFramebufferDirtyPages` return immediately, so they are no-ops here.
- The texture and palette caches (`PrepareTexture`, `PreparePalette`, `PalCache_*`, `CGsCachedArea`) are not part of this model. Binding a texture records which texture and palette are used, not their contents.
- The shader generators' text output is not modelled. Each generator is represented by the decisions it encodes (`FragmentLogic`, `GlslBitwise.ClampCoordinate`, the `Glsl*` helpers).
- The `VERTEX_BUFFER_SIZE` capacity asserts in `Prim_*` are debug checks. Nothing in the renderer flushes a full batch, and `std::vector` grows past the reserved size, so the model's batch is unbounded and the asserts are not modelled.
- The Win32 and Qt front ends are outside the renderer and are not modelled.

## Findings

| source | as written | input that shows it | evidently intended | confidence | as-written member | corrected member |
|---|---|---|---|---|---|---|
| Source/gs/GSH_OpenGL/GSH_OpenGL.cpp:755-756 | the shader cache look-up (line 661) and the shader-change test (lines 755-756) compare `static_cast<uint32>(shaderCaps)`, the low 32 bits of the 64-bit descriptor, which do not hold `texPsm`, `texCpsm`, `framePsm` or `depthPsm` | two draws, identical except FRAME = 0 (PSMCT32) and FRAME = 0x2000000 (PSMCT16): the second is drawn with the program generated for the first | key the map (already `uint64`) and the change test by the whole descriptor | not executed | TruncatedKey.TruncatedKeyServesStaleProgram | RendererSpec.CachedProgramIsCaps |
| Source/gs/GSH_OpenGL/GSH_OpenGL_Shader.cpp:1096-1101 | `XferStream_Read4` reads word `i / 16` and shifts by `(i % 16) * 4`, though a 32-bit word holds 8 nibbles | pixel 16 of the stream bytes 00 00 00 00 01 00 00 00 02 00 00 00 is 2, but the read returns 1 (pixel 8); for `i % 16` of 8 or more the shift reaches 32 | word `i / 8`, shift `(i % 8) * 4` | not executed | GlslXfer.Read4AsWrittenMisreadsPixel16 | GlslXfer.Read4ReturnsPixel |
| Source/gs/GSH_OpenGL/GSH_OpenGL_Shader.cpp:1060-1067 | the `xferParams` block declares `g_bufAddress` first, while the host's `XFERPARAMS` (GSH_OpenGL.h:182-191) starts with `pixelCount`, so every field is read one word early | a 256-pixel transfer to address 0 with width 64 and RRW 16 is read by the shader as address 256 with RRW 64 | declare `pixelCount` first in the block, matching the host struct | not executed | GlslXfer.ParamsAsWrittenMisplaceTransfer | GlslXfer.ParamsRoundTrip |
