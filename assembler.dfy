/**
 * The vertex kick window of `VertexKick`: three slots filled from the top
 * slot down while the countdown `m_nVtxCount` runs to zero, the slots a
 * primitive reads when it is emitted, and the reseeding that makes strips,
 * fans and line strips reuse earlier vertices.
 */
module Assembler {
  import opened GsRegs
  import opened Primitives

  /** The three slots of `m_VtxBuffer` and the countdown `m_nVtxCount`. */
  datatype Window = Window(slots: seq<Vertex>, count: nat)

  predicate ValidWindow(w: Window)
  {
    |w.slots| == 3 && w.count <= 3
  }

  /**
   * The countdown `WriteRegisterImpl` sets for a new primitive type. The
   * reserved type 7 matches no case and keeps the current countdown.
   */
  function InitialCount(primType: nat, count: nat): (c: nat)
    requires primType < 8
    ensures primType == PRIM_POINT ==> c == 1
    ensures primType == PRIM_LINE || primType == PRIM_LINESTRIP || primType == PRIM_SPRITE ==> c == 2
    ensures primType == PRIM_TRIANGLE || primType == PRIM_TRIANGLESTRIP || primType == PRIM_TRIANGLEFAN ==> c == 3
    ensures primType == PRIM_INVALID ==> c == count
  {
    if primType == PRIM_POINT then 1
    else if primType == PRIM_LINE || primType == PRIM_LINESTRIP || primType == PRIM_SPRITE then 2
    else if primType == PRIM_INVALID then count
    else 3
  }

  /** A fresh countdown is the number of slots the primitive reads when emitted. */
  lemma CountdownMatchesEmission(primType: nat, slots: seq<Vertex>)
    requires primType < PRIM_INVALID && |slots| == 3
    ensures InitialCount(primType, 0) == |EmissionOrder(primType, slots)|
  {
  }

  /** The slot a kick writes (`m_nVtxCount - 1`) and the decremented countdown. */
  function Store(w: Window, v: Vertex): (r: Window)
    requires ValidWindow(w) && w.count > 0
    ensures ValidWindow(r) && r.count == w.count - 1
    ensures r.slots[w.count - 1] == v
    ensures forall i :: 0 <= i < 3 && i != w.count - 1 ==> r.slots[i] == w.slots[i]
  {
    Window(w.slots[w.count - 1 := v], w.count - 1)
  }

  /**
   * The slots an emitted primitive reads, oldest first: `Prim_Point` reads
   * slot 0, `Prim_Line` and `Prim_Sprite` slots 1 and 0, `Prim_Triangle`
   * slots 2, 1 and 0.
   */
  function EmissionOrder(primType: nat, slots: seq<Vertex>): (order: seq<Vertex>)
    requires |slots| == 3 && primType < 8
    ensures primType == PRIM_POINT ==> order == [slots[0]]
    ensures primType == PRIM_LINE || primType == PRIM_LINESTRIP || primType == PRIM_SPRITE ==> order == [slots[1], slots[0]]
    ensures primType == PRIM_TRIANGLE || primType == PRIM_TRIANGLESTRIP || primType == PRIM_TRIANGLEFAN ==>
              order == [slots[2], slots[1], slots[0]]
    ensures primType == PRIM_INVALID ==> order == []
  {
    if primType == PRIM_POINT then [slots[0]]
    else if primType == PRIM_LINE || primType == PRIM_LINESTRIP || primType == PRIM_SPRITE then [slots[1], slots[0]]
    else if primType == PRIM_INVALID then []
    else [slots[2], slots[1], slots[0]]
  }

  /**
   * The window after a primitive completed: lists restart the countdown,
   * a line strip keeps its last vertex, a triangle strip its last two and
   * a fan its first and last.
   */
  function Reseed(primType: nat, slots: seq<Vertex>): (r: Window)
    requires |slots| == 3 && primType < 8
    ensures ValidWindow(r)
    ensures primType == PRIM_POINT ==> r == Window(slots, 1)
    ensures primType == PRIM_LINE || primType == PRIM_SPRITE ==> r == Window(slots, 2)
    ensures primType == PRIM_TRIANGLE ==> r == Window(slots, 3)
    ensures primType == PRIM_LINESTRIP ==> r == Window([slots[0], slots[0], slots[2]], 1)
    ensures primType == PRIM_TRIANGLESTRIP ==> r == Window([slots[0], slots[0], slots[1]], 1)
    ensures primType == PRIM_TRIANGLEFAN ==> r == Window([slots[0], slots[0], slots[2]], 1)
    ensures primType == PRIM_INVALID ==> r == Window(slots, 0)
  {
    if primType == PRIM_POINT then Window(slots, 1)
    else if primType == PRIM_LINE || primType == PRIM_SPRITE then Window(slots, 2)
    else if primType == PRIM_TRIANGLE then Window(slots, 3)
    else if primType == PRIM_LINESTRIP || primType == PRIM_TRIANGLEFAN then Window(slots[1 := slots[0]], 1)
    else if primType == PRIM_TRIANGLESTRIP then Window(slots[2 := slots[1]][1 := slots[0]], 1)
    else Window(slots, 0)
  }

  /**
   * One kick on the window: ignored when the countdown is already zero;
   * otherwise the vertex is stored, and when the countdown reaches zero a
   * drawing kick emits the primitive (as the slots it reads) and the
   * window is reseeded.
   */
  function Step(primType: nat, w: Window, v: Vertex, drawing: bool): (r: (Window, seq<seq<Vertex>>))
    requires ValidWindow(w) && primType < 8
    ensures ValidWindow(r.0)
    ensures w.count == 0 ==> r == (w, [])
    ensures !drawing || primType == PRIM_INVALID ==> r.1 == []
    ensures |r.1| <= 1
  {
    if w.count == 0 then (w, [])
    else
      var s := Store(w, v);
      if s.count != 0 then (s, [])
      else (Reseed(primType, s.slots),
            if drawing && primType != PRIM_INVALID then [EmissionOrder(primType, s.slots)] else [])
  }

  /** The primitives emitted by a run of drawing kicks, in order. */
  function Run(primType: nat, w: Window, kicks: seq<Vertex>): (emitted: seq<seq<Vertex>>)
    requires ValidWindow(w) && primType < 8
    decreases |kicks|
  {
    if kicks == [] then []
    else
      var (w', e) := Step(primType, w, kicks[0], true);
      e + Run(primType, w', kicks[1..])
  }

  /** A kick with drawing disabled moves the window exactly like a drawing kick, and emits nothing. */
  lemma NonDrawingKickAdvancesWindow(primType: nat, w: Window, v: Vertex)
    requires ValidWindow(w) && primType < 8
    ensures Step(primType, w, v, false).0 == Step(primType, w, v, true).0
    ensures Step(primType, w, v, false).1 == []
  {
  }

  // ---------------------------------------------------------------
  // Strip, fan and list orders
  // ---------------------------------------------------------------

  /** Consecutive triples of a sequence. */
  function Triples(s: seq<Vertex>): (ts: seq<seq<Vertex>>)
    ensures |ts| == if |s| < 3 then 0 else |s| - 2
    decreases |s|
  {
    if |s| < 3 then [] else [[s[0], s[1], s[2]]] + Triples(s[1..])
  }

  /** Fan triangles around an anchor: (anchor, s[i], s[i+1]). */
  function FanTriangles(anchor: Vertex, s: seq<Vertex>): (ts: seq<seq<Vertex>>)
    ensures |ts| == if |s| < 2 then 0 else |s| - 1
    decreases |s|
  {
    if |s| < 2 then [] else [[anchor, s[0], s[1]]] + FanTriangles(anchor, s[1..])
  }

  /** Consecutive pairs of a sequence. */
  function Pairs(s: seq<Vertex>): (ps: seq<seq<Vertex>>)
    ensures |ps| == if |s| < 2 then 0 else |s| - 1
    decreases |s|
  {
    if |s| < 2 then [] else [[s[0], s[1]]] + Pairs(s[1..])
  }

  /** The i-th consecutive triple starts at position i. */
  lemma {:induction false} TriplesAt(s: seq<Vertex>, i: nat)
    requires i + 2 < |s|
    ensures Triples(s)[i] == [s[i], s[i + 1], s[i + 2]]
    decreases i
  {
    if i > 0 {
      TriplesAt(s[1..], i - 1);
    }
  }

  /** The i-th fan triangle joins the anchor to positions i and i + 1. */
  lemma {:induction false} FanTrianglesAt(anchor: Vertex, s: seq<Vertex>, i: nat)
    requires i + 1 < |s|
    ensures FanTriangles(anchor, s)[i] == [anchor, s[i], s[i + 1]]
    decreases i
  {
    if i > 0 {
      FanTrianglesAt(anchor, s[1..], i - 1);
    }
  }

  /** The i-th consecutive pair starts at position i. */
  lemma {:induction false} PairsAt(s: seq<Vertex>, i: nat)
    requires i + 1 < |s|
    ensures Pairs(s)[i] == [s[i], s[i + 1]]
    decreases i
  {
    if i > 0 {
      PairsAt(s[1..], i - 1);
    }
  }

  /** A strip window holding two vertices emits a triangle for every further kick. */
  lemma {:induction false} StripContinues(a: Vertex, b: Vertex, x: Vertex, kicks: seq<Vertex>)
    ensures Run(PRIM_TRIANGLESTRIP, Window([x, b, a], 1), kicks) == Triples([a, b] + kicks)
    decreases |kicks|
  {
    if kicks != [] {
      var c := kicks[0];
      assert Step(PRIM_TRIANGLESTRIP, Window([x, b, a], 1), c, true) == (Window([c, c, b], 1), [[a, b, c]]);
      StripContinues(b, c, c, kicks[1..]);
      assert ([a, b] + kicks)[1..] == [b, c] + kicks[1..];
    }
  }

  /**
   * A triangle strip started by a PRIM write emits (k0,k1,k2), (k1,k2,k3),
   * ... in kick order.
   */
  lemma TriangleStripOrder(slots: seq<Vertex>, kicks: seq<Vertex>)
    requires |slots| == 3
    ensures Run(PRIM_TRIANGLESTRIP, Window(slots, 3), kicks) == Triples(kicks)
  {
    var w := Window(slots, 3);
    if |kicks| >= 2 {
      var w1 := Step(PRIM_TRIANGLESTRIP, w, kicks[0], true).0;
      var w2 := Step(PRIM_TRIANGLESTRIP, w1, kicks[1], true).0;
      assert w2 == Window([slots[0], kicks[1], kicks[0]], 1);
      StripContinues(kicks[0], kicks[1], slots[0], kicks[2..]);
      assert [kicks[0], kicks[1]] + kicks[2..] == kicks;
      assert kicks[1..][1..] == kicks[2..];
    } else if |kicks| == 1 {
      assert kicks[1..] == [];
    }
  }

  /** A fan window holding the anchor and one vertex emits a triangle for every further kick. */
  lemma {:induction false} FanContinues(anchor: Vertex, b: Vertex, x: Vertex, kicks: seq<Vertex>)
    ensures Run(PRIM_TRIANGLEFAN, Window([x, b, anchor], 1), kicks) == FanTriangles(anchor, [b] + kicks)
    decreases |kicks|
  {
    if kicks != [] {
      var c := kicks[0];
      assert Step(PRIM_TRIANGLEFAN, Window([x, b, anchor], 1), c, true) == (Window([c, c, anchor], 1), [[anchor, b, c]]);
      FanContinues(anchor, c, c, kicks[1..]);
      assert ([b] + kicks)[1..] == [c] + kicks[1..];
    }
  }

  /** The first two kicks after a PRIM write fill slots 2 and 1 and emit nothing. */
  lemma FirstTwoKicks(primType: nat, slots: seq<Vertex>, k0: Vertex, k1: Vertex)
    requires |slots| == 3 && primType < 8
    ensures Step(primType, Window(slots, 3), k0, true) == (Window([slots[0], slots[1], k0], 2), [])
    ensures Step(primType, Window([slots[0], slots[1], k0], 2), k1, true) == (Window([slots[0], k1, k0], 1), [])
  {
    assert Store(Window(slots, 3), k0) == Window([slots[0], slots[1], k0], 2);
    assert Store(Window([slots[0], slots[1], k0], 2), k1) == Window([slots[0], k1, k0], 1);
  }

  /** One unfolding of `Run`. */
  lemma RunCons(primType: nat, w: Window, kicks: seq<Vertex>)
    requires ValidWindow(w) && primType < 8 && kicks != []
    ensures Run(primType, w, kicks) ==
            Step(primType, w, kicks[0], true).1 + Run(primType, Step(primType, w, kicks[0], true).0, kicks[1..])
  {
  }

  /**
   * A triangle fan emits (k0,k1,k2), (k0,k2,k3), ... around its first
   * vertex; the kicks are written `[k0, k1] + rest` (fewer than two kicks
   * emit nothing).
   */
  lemma TriangleFanOrder(slots: seq<Vertex>, k0: Vertex, k1: Vertex, rest: seq<Vertex>)
    requires |slots| == 3
    ensures Run(PRIM_TRIANGLEFAN, Window(slots, 3), [k0, k1] + rest) == FanTriangles(k0, [k1] + rest)
  {
    var t := PRIM_TRIANGLEFAN;
    var kicks := [k0, k1] + rest;
    FirstTwoKicks(t, slots, k0, k1);
    RunCons(t, Window(slots, 3), kicks);
    assert kicks[1..] == [k1] + rest;
    RunCons(t, Window([slots[0], slots[1], k0], 2), kicks[1..]);
    assert kicks[1..][1..] == rest;
    FanContinues(k0, k1, slots[0], rest);
  }

  /** A line-strip window holding one vertex emits a segment for every further kick. */
  lemma {:induction false} LineStripContinues(a: Vertex, x: Vertex, y: Vertex, kicks: seq<Vertex>)
    ensures Run(PRIM_LINESTRIP, Window([x, a, y], 1), kicks) == Pairs([a] + kicks)
    decreases |kicks|
  {
    if kicks != [] {
      var c := kicks[0];
      assert Step(PRIM_LINESTRIP, Window([x, a, y], 1), c, true) == (Window([c, c, y], 1), [[a, c]]);
      LineStripContinues(c, c, y, kicks[1..]);
      assert ([a] + kicks)[1..] == [c] + kicks[1..];
    }
  }

  /** A line strip emits (k0,k1), (k1,k2), ... in kick order. */
  lemma LineStripOrder(slots: seq<Vertex>, kicks: seq<Vertex>)
    requires |slots| == 3
    ensures Run(PRIM_LINESTRIP, Window(slots, 2), kicks) == Pairs(kicks)
  {
    var w := Window(slots, 2);
    if |kicks| >= 1 {
      var w1 := Step(PRIM_LINESTRIP, w, kicks[0], true).0;
      assert w1 == Window([slots[0], kicks[0], slots[2]], 1);
      LineStripContinues(kicks[0], slots[0], slots[2], kicks[1..]);
      assert [kicks[0]] + kicks[1..] == kicks;
    }
  }

  /** Disjoint triples of a sequence, for triangle lists. */
  function Chunks3(s: seq<Vertex>): (ts: seq<seq<Vertex>>)
    ensures |ts| == |s| / 3
    decreases |s|
  {
    if |s| < 3 then [] else [[s[0], s[1], s[2]]] + Chunks3(s[3..])
  }

  /** The i-th disjoint triple starts at position 3i. */
  lemma {:induction false} Chunks3At(s: seq<Vertex>, i: nat)
    requires 3 * i + 2 < |s|
    ensures Chunks3(s)[i] == [s[3 * i], s[3 * i + 1], s[3 * i + 2]]
    decreases i
  {
    if i > 0 {
      Chunks3At(s[3..], i - 1);
    }
  }

  /** A triangle list emits (k0,k1,k2), (k3,k4,k5), ...; a trailing partial triangle is not drawn. */
  lemma {:induction false} TriangleListOrder(slots: seq<Vertex>, kicks: seq<Vertex>)
    requires |slots| == 3
    ensures Run(PRIM_TRIANGLE, Window(slots, 3), kicks) == Chunks3(kicks)
    decreases |kicks|
  {
    var t := PRIM_TRIANGLE;
    var w := Window(slots, 3);
    if |kicks| >= 3 {
      var w1 := Window([slots[0], slots[1], kicks[0]], 2);
      var w2 := Window([slots[0], kicks[1], kicks[0]], 1);
      var w3 := Window([kicks[2], kicks[1], kicks[0]], 3);
      assert Store(w, kicks[0]) == w1;
      assert Store(w1, kicks[1]) == w2;
      assert Store(w2, kicks[2]) == Window([kicks[2], kicks[1], kicks[0]], 0);
      assert Step(t, w, kicks[0], true) == (w1, []);
      assert Step(t, w1, kicks[1], true) == (w2, []);
      assert Step(t, w2, kicks[2], true) == (w3, [[kicks[0], kicks[1], kicks[2]]]);
      assert Run(t, w, kicks) == Run(t, w1, kicks[1..]);
      assert Run(t, w1, kicks[1..]) == Run(t, w2, kicks[1..][1..]);
      assert kicks[1..][1..] == kicks[2..];
      assert Run(t, w2, kicks[2..]) == [[kicks[0], kicks[1], kicks[2]]] + Run(t, w3, kicks[2..][1..]);
      assert kicks[2..][1..] == kicks[3..];
      TriangleListOrder([kicks[2], kicks[1], kicks[0]], kicks[3..]);
    } else if |kicks| == 2 {
      var w1 := Window([slots[0], slots[1], kicks[0]], 2);
      assert Store(w, kicks[0]) == w1;
      assert Run(t, w, kicks) == Run(t, w1, kicks[1..]);
      assert kicks[1..][1..] == [];
    } else if |kicks| == 1 {
      assert kicks[1..] == [];
    }
  }

  /** Each vertex on its own, for point lists. */
  function Singletons(s: seq<Vertex>): (ts: seq<seq<Vertex>>)
    ensures |ts| == |s|
    decreases |s|
  {
    if s == [] then [] else [[s[0]]] + Singletons(s[1..])
  }

  /** The i-th singleton is the i-th vertex. */
  lemma {:induction false} SingletonsAt(s: seq<Vertex>, i: nat)
    requires i < |s|
    ensures Singletons(s)[i] == [s[i]]
    decreases i
  {
    if i > 0 {
      SingletonsAt(s[1..], i - 1);
    }
  }

  /** Disjoint pairs of a sequence, for line lists and sprites. */
  function Chunks2(s: seq<Vertex>): (ts: seq<seq<Vertex>>)
    ensures |ts| == |s| / 2
    decreases |s|
  {
    if |s| < 2 then [] else [[s[0], s[1]]] + Chunks2(s[2..])
  }

  /** The i-th disjoint pair starts at position 2i. */
  lemma {:induction false} Chunks2At(s: seq<Vertex>, i: nat)
    requires 2 * i + 1 < |s|
    ensures Chunks2(s)[i] == [s[2 * i], s[2 * i + 1]]
    decreases i
  {
    if i > 0 {
      Chunks2At(s[2..], i - 1);
    }
  }

  /** A point list emits one point per kick: (k0), (k1), ... */
  lemma {:induction false} PointListOrder(slots: seq<Vertex>, kicks: seq<Vertex>)
    requires |slots| == 3
    ensures Run(PRIM_POINT, Window(slots, 1), kicks) == Singletons(kicks)
    decreases |kicks|
  {
    if kicks != [] {
      var w1 := Window([kicks[0], slots[1], slots[2]], 1);
      assert Store(Window(slots, 1), kicks[0]) == Window(w1.slots, 0);
      assert Step(PRIM_POINT, Window(slots, 1), kicks[0], true) == (w1, [[kicks[0]]]);
      PointListOrder(w1.slots, kicks[1..]);
    }
  }

  /**
   * A line list or a sprite list emits (k0,k1), (k2,k3), ...; a trailing
   * unpaired kick is not drawn.
   */
  lemma {:induction false} PairListOrder(primType: nat, slots: seq<Vertex>, kicks: seq<Vertex>)
    requires primType == PRIM_LINE || primType == PRIM_SPRITE
    requires |slots| == 3
    ensures Run(primType, Window(slots, 2), kicks) == Chunks2(kicks)
    decreases |kicks|
  {
    var w := Window(slots, 2);
    if |kicks| >= 2 {
      var w1 := Window([slots[0], kicks[0], slots[2]], 1);
      var w2 := Window([kicks[1], kicks[0], slots[2]], 2);
      assert Store(w, kicks[0]) == w1;
      assert Store(w1, kicks[1]) == Window(w2.slots, 0);
      assert Step(primType, w, kicks[0], true) == (w1, []);
      assert Step(primType, w1, kicks[1], true) == (w2, [[kicks[0], kicks[1]]]);
      assert Run(primType, w, kicks) == Run(primType, w1, kicks[1..]);
      assert Run(primType, w1, kicks[1..]) == [[kicks[0], kicks[1]]] + Run(primType, w2, kicks[1..][1..]);
      assert kicks[1..][1..] == kicks[2..];
      PairListOrder(primType, w2.slots, kicks[2..]);
    } else if |kicks| == 1 {
      assert kicks[1..] == [];
    }
  }
}
