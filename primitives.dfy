/**
 * The vertex records of the renderer: the register snapshot kept in the
 * three-slot kick window (`VERTEX`), the vertex appended to the draw
 * batch (`PRIM_VERTEX`), and the vertices `Prim_Point`, `Prim_Line`,
 * `Prim_Triangle` and `Prim_Sprite` build from the window.
 *
 * Positions are kept in 1/16-pixel units: the GS stores X, Y and the
 * primitive offset as 12.4 fixed-point numbers, so `X/16 - OFX/16` in
 * single precision is the exact value `(X - OFX) / 16`. Texture
 * coordinates and Q are floating-point and are not modelled; the fog
 * factor is kept as its integer numerator (the factor is numerator / 255).
 */
module Primitives {
  import opened Arith
  import opened GsRegs

  type Byte = v: nat | v < 0x100

  /** `VERTEX`: one slot of the kick window. */
  datatype Vertex = Vertex(position: U64, rgbaq: U64, uv: U64, st: U64, fog: Byte)

  const EMPTY_VERTEX := Vertex(0, 0, 0, 0, 0)

  /** `PRIM_VERTEX` without its floating-point texture coordinates. */
  datatype PrimVertex = PrimVertex(x16: int, y16: int, z: nat, color: nat, fogLevel: nat)

  /** `VERTEX_BUFFER_SIZE`: the capacity reserved for the draw batch. */
  const VERTEX_BUFFER_SIZE: nat := 0x1000

  /** The primitive offset of the drawing context, in 1/16 pixels. */
  datatype PrimOffset = PrimOffset(x16: int, y16: int)

  // ---------------------------------------------------------------
  // MakeColor
  // ---------------------------------------------------------------

  /** `MakeColor`: the four 8-bit channels packed as A:B:G:R, R in the low byte. */
  function MakeColor(r: nat, g: nat, b: nat, a: nat): (color: nat)
    requires r < 0x100 && g < 0x100 && b < 0x100 && a < 0x100
    ensures color < 0x1_0000_0000
  {
    r + 0x100 * (g + 0x100 * (b + 0x100 * a))
  }

  /** The channels can be read back from the packed colour. */
  lemma MakeColorChannels(r: nat, g: nat, b: nat, a: nat)
    requires r < 0x100 && g < 0x100 && b < 0x100 && a < 0x100
    ensures MakeColor(r, g, b, a) % 0x100 == r
    ensures (MakeColor(r, g, b, a) / 0x100) % 0x100 == g
    ensures (MakeColor(r, g, b, a) / 0x1_0000) % 0x100 == b
    ensures MakeColor(r, g, b, a) / 0x100_0000 == a
  {
    var hb := b + 0x100 * a;
    var hg := g + 0x100 * hb;
    DivModStep(r, 0x100, hg);
    DivModStep(g, 0x100, hb);
    DivModStep(b, 0x100, a);
    assert MakeColor(r, g, b, a) / 0x1_0000 == hb;
    assert MakeColor(r, g, b, a) / 0x100_0000 == hb / 0x100;
  }

  /** Distinct channel values give distinct colours. */
  lemma MakeColorInjective(r1: nat, g1: nat, b1: nat, a1: nat, r2: nat, g2: nat, b2: nat, a2: nat)
    requires r1 < 0x100 && g1 < 0x100 && b1 < 0x100 && a1 < 0x100
    requires r2 < 0x100 && g2 < 0x100 && b2 < 0x100 && a2 < 0x100
    ensures MakeColor(r1, g1, b1, a1) == MakeColor(r2, g2, b2, a2) <==>
            r1 == r2 && g1 == g2 && b1 == b2 && a1 == a2
  {
    MakeColorChannels(r1, g1, b1, a1);
    MakeColorChannels(r2, g2, b2, a2);
  }

  /** The packed colour of a window slot's RGBAQ snapshot. */
  function VertexColor(v: Vertex): nat
  {
    MakeColor(RgbaqR(v.rgbaq), RgbaqG(v.rgbaq), RgbaqB(v.rgbaq), RgbaqA(v.rgbaq))
  }

  // ---------------------------------------------------------------
  // Prim_* vertex construction
  // ---------------------------------------------------------------

  /** A batch vertex at a slot's position relative to the primitive offset. */
  function Emit(v: Vertex, ofs: PrimOffset, z: nat, color: nat, fogLevel: nat): (p: PrimVertex)
    ensures p.x16 == XyzX(v.position) - ofs.x16 && p.y16 == XyzY(v.position) - ofs.y16
    ensures p.z == z && p.color == color && p.fogLevel == fogLevel
  {
    PrimVertex(XyzX(v.position) - ofs.x16, XyzY(v.position) - ofs.y16, z, color, fogLevel)
  }

  /** `Prim_Point`: the newest slot, with no fog. */
  function PointVertices(w: seq<Vertex>, ofs: PrimOffset): (vs: seq<PrimVertex>)
    requires |w| == 3
    ensures |vs| == 1
    ensures vs[0] == Emit(w[0], ofs, XyzZ(w[0].position), VertexColor(w[0]), 0)
  {
    [Emit(w[0], ofs, XyzZ(w[0].position), VertexColor(w[0]), 0)]
  }

  /** `Prim_Line`: the older slot first, then the newer one, each with its own colour. */
  function LineVertices(w: seq<Vertex>, ofs: PrimOffset): (vs: seq<PrimVertex>)
    requires |w| == 3
    ensures |vs| == 2
    ensures forall i :: 0 <= i < 2 ==> vs[i] == Emit(w[1 - i], ofs, XyzZ(w[1 - i].position), VertexColor(w[1 - i]), 0)
  {
    [Emit(w[1], ofs, XyzZ(w[1].position), VertexColor(w[1]), 0),
     Emit(w[0], ofs, XyzZ(w[0].position), VertexColor(w[0]), 0)]
  }

  /** The fog numerator of a triangle vertex: 0xFF - fog when PRIM enables fog, 0 otherwise. */
  function TriangleFog(v: Vertex, primMode: nat): (level: nat)
    ensures PrimFog(primMode) == 0 ==> level == 0
    ensures PrimFog(primMode) != 0 ==> level + v.fog == 0xFF
  {
    if PrimFog(primMode) != 0 then 0xFF - v.fog else 0
  }

  /**
   * `Prim_Triangle`: the oldest slot first. Gouraud shading keeps each
   * slot's colour; flat shading (`nShading == 0`) gives every vertex the
   * colour of the newest slot.
   */
  function TriangleVertices(w: seq<Vertex>, ofs: PrimOffset, primMode: nat): (vs: seq<PrimVertex>)
    requires |w| == 3
    ensures |vs| == 3
    ensures forall i :: 0 <= i < 3 ==>
              vs[i].x16 == XyzX(w[2 - i].position) - ofs.x16 && vs[i].y16 == XyzY(w[2 - i].position) - ofs.y16 &&
              vs[i].z == XyzZ(w[2 - i].position) && vs[i].fogLevel == TriangleFog(w[2 - i], primMode)
    ensures PrimShading(primMode) == 0 ==> forall i :: 0 <= i < 3 ==> vs[i].color == VertexColor(w[0])
    ensures PrimShading(primMode) != 0 ==> forall i :: 0 <= i < 3 ==> vs[i].color == VertexColor(w[2 - i])
  {
    var flat := PrimShading(primMode) == 0;
    var c1 := if flat then VertexColor(w[0]) else VertexColor(w[2]);
    var c2 := if flat then VertexColor(w[0]) else VertexColor(w[1]);
    [Emit(w[2], ofs, XyzZ(w[2].position), c1, TriangleFog(w[2], primMode)),
     Emit(w[1], ofs, XyzZ(w[1].position), c2, TriangleFog(w[1], primMode)),
     Emit(w[0], ofs, XyzZ(w[0].position), VertexColor(w[0]), TriangleFog(w[0], primMode))]
  }

  /** A sprite corner: x from one slot, y from another, z and colour shared. */
  function Corner(vx: Vertex, vy: Vertex, ofs: PrimOffset, z: nat, color: nat): PrimVertex
  {
    PrimVertex(XyzX(vx.position) - ofs.x16, XyzY(vy.position) - ofs.y16, z, color, 0)
  }

  /**
   * `Prim_Sprite`: the rectangle spanned by the two slots as two triangles
   * (x1,y1),(x2,y1),(x1,y2) and (x1,y2),(x2,y1),(x2,y2). Every vertex takes
   * the newest slot's z and colour.
   */
  function SpriteVertices(w: seq<Vertex>, ofs: PrimOffset): (vs: seq<PrimVertex>)
    requires |w| == 3
    ensures |vs| == 6
    ensures forall i :: 0 <= i < 6 ==>
              vs[i].z == XyzZ(w[0].position) && vs[i].color == VertexColor(w[0]) && vs[i].fogLevel == 0
    ensures forall i :: 0 <= i < 6 ==>
              (vs[i].x16 == XyzX(w[1].position) - ofs.x16 || vs[i].x16 == XyzX(w[0].position) - ofs.x16) &&
              (vs[i].y16 == XyzY(w[1].position) - ofs.y16 || vs[i].y16 == XyzY(w[0].position) - ofs.y16)
    ensures vs[3] == vs[2] && vs[4] == vs[1]
    ensures vs[0].x16 == XyzX(w[1].position) - ofs.x16 && vs[0].y16 == XyzY(w[1].position) - ofs.y16
    ensures vs[5].x16 == XyzX(w[0].position) - ofs.x16 && vs[5].y16 == XyzY(w[0].position) - ofs.y16
    ensures vs[1].x16 == vs[5].x16 && vs[1].y16 == vs[0].y16
    ensures vs[2].x16 == vs[0].x16 && vs[2].y16 == vs[5].y16
  {
    var z, color := XyzZ(w[0].position), VertexColor(w[0]);
    var p11 := Corner(w[1], w[1], ofs, z, color);
    var p21 := Corner(w[0], w[1], ofs, z, color);
    var p12 := Corner(w[1], w[0], ofs, z, color);
    var p22 := Corner(w[0], w[0], ofs, z, color);
    [p11, p21, p12, p12, p21, p22]
  }
}
