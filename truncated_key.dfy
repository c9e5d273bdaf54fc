/**
 * The shader cache and the shader-change test as the renderer writes
 * them: both go through `static_cast<uint32>` of the descriptor, so only
 * its low 32 bits take part, although the descriptor (and the map's key
 * type) is 64 bits wide. The rest of the model keys by the whole
 * descriptor; this module shows what the truncation loses.
 */
module TruncatedKey {
  import opened GsRegs
  import opened ShaderCaps
  import opened CapsDerivation

  /**
   * `GetShaderFromCaps` as written: look up and insert under the low
   * 32 bits; on a miss the program generated from `caps` is stored.
   */
  function CachedProgramAsWritten(shaders: map<nat, Caps>, caps: Caps): (r: (map<nat, Caps>, Caps))
    ensures Key(caps) in r.0 && r.1 == r.0[Key(caps)]
    ensures r.0.Keys == shaders.Keys + {Key(caps)}
    ensures Key(caps) in shaders ==> r == (shaders, shaders[Key(caps)])
    ensures Key(caps) !in shaders ==> r.1 == caps && r.0 == shaders[Key(caps) := caps]
  {
    if Key(caps) in shaders then (shaders, shaders[Key(caps)])
    else (shaders[Key(caps) := caps], caps)
  }

  /**
   * The shader-change test of `SetRenderingContext` as written: the
   * current descriptor is kept while the state is valid and the low
   * 32 bits agree.
   */
  function AdoptedCapsAsWritten(current: Caps, isValid: bool, caps: Caps): (r: Caps)
    ensures r == caps || r == current
    ensures isValid && Key(current) == Key(caps) ==> r == current
    ensures !isValid || Key(current) != Key(caps) ==> r == caps
  {
    if !isValid || Key(current) != Key(caps) then caps else current
  }

  /**
   * For any two well-formed descriptors that agree in their low fields, a
   * cache holding the first serves its program for the second, and a
   * valid state holding the first keeps it.
   */
  lemma LowFieldsConflated(c1: Caps, c2: Caps)
    requires WellFormed(c1) && WellFormed(c2) && SameLowFields(c1, c2)
    ensures CachedProgramAsWritten(map[Key(c1) := c1], c2).1 == c1
    ensures AdoptedCapsAsWritten(c1, true, c2) == c1
  {
    KeyEqualIffSameLowFields(c1, c2);
  }

  /**
   * Two contexts whose FRAME registers select different PSMs have
   * different descriptors with the same key: the as-written cache serves
   * the program generated for the first context when drawing the second,
   * and the as-written shader-change test keeps the first descriptor.
   */
  lemma TruncatedKeyServesStaleProgram(prim: nat, r: ContextRegs, frame2: nat, forceBilinear: bool)
    requires FramePsm(frame2) != FramePsm(r.frame)
    ensures var c1 := DeriveShaderCaps(prim, r, forceBilinear);
            var c2 := DeriveShaderCaps(prim, r.(frame := frame2), forceBilinear);
            c1 != c2 && c2.framePsm == FramePsm(frame2) && Key(c1) == Key(c2) &&
            CachedProgramAsWritten(map[Key(c1) := c1], c2).1 == c1 &&
            AdoptedCapsAsWritten(c1, true, c2) == c1
  {
    var c1 := DeriveShaderCaps(prim, r, forceBilinear);
    FramePsmOnlyTouchesFramePsm(prim, r, frame2, forceBilinear);
    var c2 := DeriveShaderCaps(prim, r.(frame := frame2), forceBilinear);
    assert c2 == c1.(framePsm := FramePsm(frame2));
    LowFieldsConflated(c1, c2);
  }

  /**
   * FRAME values that satisfy the precondition above: 0 (PSMCT32 at
   * address 0) and 0x200_0000 (PSMCT16 at the same address).
   */
  lemma Ct32AndCt16Frames()
    ensures FramePsm(0) == PSMCT32 && FramePsm(0x200_0000) == PSMCT16
    ensures FramePsm(0x200_0000) != FramePsm(0)
  {
  }
}
