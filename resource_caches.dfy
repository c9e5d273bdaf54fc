/**
 * The framebuffer and depthbuffer caches (`m_framebuffers`,
 * `m_depthbuffers`): each entry is an identity record (base pointer, width,
 * height, storage mode); look-ups are linear first-match searches, and an
 * entry is appended only when the search misses.
 */
module ResourceCaches {
  import opened GsRegs
  import opened Wrappers

  /** `FRAMEBUFFER_HEIGHT`: every cached buffer is 1024 lines high. */
  const FRAMEBUFFER_HEIGHT: nat := 1024

  datatype Framebuffer = Framebuffer(basePtr: nat, width: nat, height: nat, psm: nat)

  datatype Depthbuffer = Depthbuffer(basePtr: nat, width: nat, height: nat, psm: nat)

  /** `std::find_if`: the index of the first element satisfying `p`. */
  function FindFirst<T>(s: seq<T>, p: T -> bool): (r: Option<nat>)
    ensures r.Some? ==> r.value < |s| && p(s[r.value]) && forall j :: 0 <= j < r.value ==> !p(s[j])
    ensures r.None? <==> forall j :: 0 <= j < |s| ==> !p(s[j])
    decreases |s|
  {
    if s == [] then None
    else if p(s[0]) then Some(0)
    else
      var rest := FindFirst(s[1..], p);
      assert forall j :: 1 <= j < |s| ==> s[j] == s[1..][j - 1];
      if rest.None? then None else Some(rest.value + 1)
  }

  // ---------------------------------------------------------------
  // Framebuffers
  // ---------------------------------------------------------------

  /** The identity `FindFramebuffer` compares: base pointer, storage mode and width of FRAME. */
  predicate FrameMatches(fb: Framebuffer, frame: nat)
  {
    fb.basePtr == FrameBasePtr(frame) && fb.psm == FramePsm(frame) && fb.width == FrameWidth(frame)
  }

  /** `FindFramebuffer`: the first cached framebuffer with FRAME's identity. */
  function FindFramebuffer(fbs: seq<Framebuffer>, frame: nat): (r: Option<nat>)
    ensures r.Some? ==> r.value < |fbs| && FrameMatches(fbs[r.value], frame)
    ensures r.Some? ==> forall j :: 0 <= j < r.value ==> !FrameMatches(fbs[j], frame)
    ensures r.None? <==> forall j :: 0 <= j < |fbs| ==> !FrameMatches(fbs[j], frame)
  {
    FindFirst(fbs, fb => FrameMatches(fb, frame))
  }

  /** The framebuffer `SetupFramebuffer` creates when the look-up misses. */
  function NewFramebuffer(frame: nat): Framebuffer
  {
    Framebuffer(FrameBasePtr(frame), FrameWidth(frame), FRAMEBUFFER_HEIGHT, FramePsm(frame))
  }

  /**
   * The find-or-create of `SetupFramebuffer`: the cache and the framebuffer
   * drawn to. A hit leaves the cache alone; a miss appends one new entry.
   */
  function EnsureFramebuffer(fbs: seq<Framebuffer>, frame: nat): (r: (seq<Framebuffer>, Framebuffer))
    ensures FrameMatches(r.1, frame)
    ensures FindFramebuffer(fbs, frame).Some? ==> r.0 == fbs && r.1 == fbs[FindFramebuffer(fbs, frame).value]
    ensures FindFramebuffer(fbs, frame).None? ==> r.0 == fbs + [r.1] && r.1 == NewFramebuffer(frame)
  {
    var found := FindFramebuffer(fbs, frame);
    if found.Some? then (fbs, fbs[found.value])
    else
      var fb := NewFramebuffer(frame);
      (fbs + [fb], fb)
  }

  /** Two framebuffers `FindFramebuffer` cannot tell apart. */
  predicate SameFramebuffer(a: Framebuffer, b: Framebuffer)
  {
    a.basePtr == b.basePtr && a.psm == b.psm && a.width == b.width
  }

  /** No two entries of the framebuffer cache share an identity. */
  predicate DistinctFramebuffers(fbs: seq<Framebuffer>)
  {
    forall i, j :: 0 <= i < j < |fbs| ==> !SameFramebuffer(fbs[i], fbs[j])
  }

  /** Appending a framebuffer whose identity is absent keeps the cache free of duplicates. */
  lemma AppendKeepsDistinctFramebuffers(fbs: seq<Framebuffer>, fb: Framebuffer)
    requires DistinctFramebuffers(fbs)
    requires forall j :: 0 <= j < |fbs| ==> !SameFramebuffer(fbs[j], fb)
    ensures DistinctFramebuffers(fbs + [fb])
  {
    var s := fbs + [fb];
    forall i, j | 0 <= i < j < |s|
      ensures !SameFramebuffer(s[i], s[j])
    {
      if j == |fbs| {
        assert s[i] == fbs[i];
      } else {
        assert s[i] == fbs[i] && s[j] == fbs[j];
      }
    }
  }

  /** Find-or-create never introduces a duplicate identity. */
  lemma EnsureFramebufferKeepsDistinct(fbs: seq<Framebuffer>, frame: nat)
    requires DistinctFramebuffers(fbs)
    ensures DistinctFramebuffers(EnsureFramebuffer(fbs, frame).0)
  {
    if FindFramebuffer(fbs, frame).None? {
      var fb := NewFramebuffer(frame);
      forall j | 0 <= j < |fbs|
        ensures !SameFramebuffer(fbs[j], fb)
      {
        assert !FrameMatches(fbs[j], frame);
      }
      AppendKeepsDistinctFramebuffers(fbs, fb);
    }
  }

  /**
   * After find-or-create the look-up hits, and it finds the framebuffer
   * just handed out: the next draw to the same FRAME creates nothing.
   */
  lemma EnsureFramebufferThenFindHits(fbs: seq<Framebuffer>, frame: nat)
    ensures EnsureFramebuffer(EnsureFramebuffer(fbs, frame).0, frame) == EnsureFramebuffer(fbs, frame)
  {
    var (fbs1, fb) := EnsureFramebuffer(fbs, frame);
    if FindFramebuffer(fbs, frame).None? {
      assert fbs1[|fbs|] == fb;
      var again := FindFramebuffer(fbs1, frame);
      assert again.Some?;
      assert forall j :: 0 <= j < |fbs| ==> fbs1[j] == fbs[j];
      assert again.value == |fbs|;
    }
  }

  // ---------------------------------------------------------------
  // Depthbuffers
  // ---------------------------------------------------------------

  /** The identity `FindDepthbuffer` compares: ZBUF's base pointer and FRAME's width. */
  predicate DepthMatches(db: Depthbuffer, zbuf: nat, frame: nat)
  {
    db.basePtr == ZbufBasePtr(zbuf) && db.width == FrameWidth(frame)
  }

  /** `FindDepthbuffer`: the first cached depthbuffer with that identity. */
  function FindDepthbuffer(dbs: seq<Depthbuffer>, zbuf: nat, frame: nat): (r: Option<nat>)
    ensures r.Some? ==> r.value < |dbs| && DepthMatches(dbs[r.value], zbuf, frame)
    ensures r.Some? ==> forall j :: 0 <= j < r.value ==> !DepthMatches(dbs[j], zbuf, frame)
    ensures r.None? <==> forall j :: 0 <= j < |dbs| ==> !DepthMatches(dbs[j], zbuf, frame)
  {
    FindFirst(dbs, db => DepthMatches(db, zbuf, frame))
  }

  /** The depthbuffer `SetupFramebuffer` creates when the look-up misses. */
  function NewDepthbuffer(zbuf: nat, frame: nat): Depthbuffer
  {
    Depthbuffer(ZbufBasePtr(zbuf), FrameWidth(frame), FRAMEBUFFER_HEIGHT, ZbufPsm(zbuf))
  }

  /** The find-or-create of the depthbuffer in `SetupFramebuffer`. */
  function EnsureDepthbuffer(dbs: seq<Depthbuffer>, zbuf: nat, frame: nat): (r: (seq<Depthbuffer>, Depthbuffer))
    ensures DepthMatches(r.1, zbuf, frame)
    ensures FindDepthbuffer(dbs, zbuf, frame).Some? ==>
              r.0 == dbs && r.1 == dbs[FindDepthbuffer(dbs, zbuf, frame).value]
    ensures FindDepthbuffer(dbs, zbuf, frame).None? ==> r.0 == dbs + [r.1] && r.1 == NewDepthbuffer(zbuf, frame)
  {
    var found := FindDepthbuffer(dbs, zbuf, frame);
    if found.Some? then (dbs, dbs[found.value])
    else
      var db := NewDepthbuffer(zbuf, frame);
      (dbs + [db], db)
  }

  /** No two entries of the depthbuffer cache share base pointer and width. */
  predicate DistinctDepthbuffers(dbs: seq<Depthbuffer>)
  {
    forall i, j :: 0 <= i < j < |dbs| ==> !(dbs[i].basePtr == dbs[j].basePtr && dbs[i].width == dbs[j].width)
  }

  /** Find-or-create never introduces a duplicate depthbuffer identity. */
  lemma EnsureDepthbufferKeepsDistinct(dbs: seq<Depthbuffer>, zbuf: nat, frame: nat)
    requires DistinctDepthbuffers(dbs)
    ensures DistinctDepthbuffers(EnsureDepthbuffer(dbs, zbuf, frame).0)
  {
    if FindDepthbuffer(dbs, zbuf, frame).None? {
      var s := EnsureDepthbuffer(dbs, zbuf, frame).0;
      forall i, j | 0 <= i < j < |s|
        ensures !(s[i].basePtr == s[j].basePtr && s[i].width == s[j].width)
      {
        assert s[i] == dbs[i];
        if j == |dbs| {
          assert !DepthMatches(dbs[i], zbuf, frame);
        } else {
          assert s[j] == dbs[j];
        }
      }
    }
  }

  // ---------------------------------------------------------------
  // Display and transfer look-ups
  // ---------------------------------------------------------------

  /**
   * The look-up of `FlipImpl`: base pointer and width as given by DISPFB,
   * storage mode only up to its bit depth (`GetFramebufferBitDepth`, not
   * part of this model, is the parameter `bitDepth`).
   */
  predicate DisplayMatches(fb: Framebuffer, dispFb: nat, bitDepth: nat -> nat)
  {
    fb.basePtr == DispFbBufPtr(dispFb) && bitDepth(fb.psm) == bitDepth(DispFbPsm(dispFb)) &&
    fb.width == DispFbBufWidth(dispFb)
  }

  function FindDisplayFramebuffer(fbs: seq<Framebuffer>, dispFb: nat, bitDepth: nat -> nat): (r: Option<nat>)
    ensures r.Some? ==> r.value < |fbs| && DisplayMatches(fbs[r.value], dispFb, bitDepth)
    ensures r.Some? ==> forall j :: 0 <= j < r.value ==> !DisplayMatches(fbs[j], dispFb, bitDepth)
    ensures r.None? <==> forall j :: 0 <= j < |fbs| ==> !DisplayMatches(fbs[j], dispFb, bitDepth)
  {
    FindFirst(fbs, fb => DisplayMatches(fb, dispFb, bitDepth))
  }

  /**
   * The find-or-create of `FlipImpl`: a miss creates a framebuffer in
   * DISPFB's own format unless its width is zero, in which case nothing is
   * presented.
   */
  function EnsureDisplayFramebuffer(fbs: seq<Framebuffer>, dispFb: nat, bitDepth: nat -> nat)
    : (r: (seq<Framebuffer>, Option<Framebuffer>))
    ensures FindDisplayFramebuffer(fbs, dispFb, bitDepth).Some? ==>
              r == (fbs, Some(fbs[FindDisplayFramebuffer(fbs, dispFb, bitDepth).value]))
    ensures FindDisplayFramebuffer(fbs, dispFb, bitDepth).None? && DispFbBufWidth(dispFb) != 0 ==>
              r.1 == Some(Framebuffer(DispFbBufPtr(dispFb), DispFbBufWidth(dispFb), FRAMEBUFFER_HEIGHT, DispFbPsm(dispFb))) &&
              r.0 == fbs + [r.1.value]
    ensures FindDisplayFramebuffer(fbs, dispFb, bitDepth).None? && DispFbBufWidth(dispFb) == 0 ==> r == (fbs, None)
  {
    var found := FindDisplayFramebuffer(fbs, dispFb, bitDepth);
    if found.Some? then (fbs, Some(fbs[found.value]))
    else if DispFbBufWidth(dispFb) != 0 then
      var fb := Framebuffer(DispFbBufPtr(dispFb), DispFbBufWidth(dispFb), FRAMEBUFFER_HEIGHT, DispFbPsm(dispFb));
      (fbs + [fb], Some(fb))
    else (fbs, None)
  }

  /**
   * The display look-up may only create a framebuffer when no entry has a
   * matching bit depth, so in particular none has the same identity: the
   * cache stays free of duplicates.
   */
  lemma EnsureDisplayFramebufferKeepsDistinct(fbs: seq<Framebuffer>, dispFb: nat, bitDepth: nat -> nat)
    requires DistinctFramebuffers(fbs)
    ensures DistinctFramebuffers(EnsureDisplayFramebuffer(fbs, dispFb, bitDepth).0)
  {
    var r := EnsureDisplayFramebuffer(fbs, dispFb, bitDepth);
    if FindDisplayFramebuffer(fbs, dispFb, bitDepth).None? && DispFbBufWidth(dispFb) != 0 {
      var fb := r.1.value;
      forall j | 0 <= j < |fbs|
        ensures !SameFramebuffer(fbs[j], fb)
      {
        assert !DisplayMatches(fbs[j], dispFb, bitDepth);
      }
      AppendKeepsDistinctFramebuffers(fbs, fb);
    }
  }

  /** The look-up of `ProcessLocalToLocalTransfer`: base pointer and width only. */
  predicate AreaMatches(fb: Framebuffer, ptr: nat, width: nat)
  {
    fb.basePtr == ptr && fb.width == width
  }

  function FindTransferFramebuffer(fbs: seq<Framebuffer>, ptr: nat, width: nat): (r: Option<nat>)
    ensures r.Some? ==> r.value < |fbs| && AreaMatches(fbs[r.value], ptr, width)
    ensures r.Some? ==> forall j :: 0 <= j < r.value ==> !AreaMatches(fbs[j], ptr, width)
    ensures r.None? <==> forall j :: 0 <= j < |fbs| ==> !AreaMatches(fbs[j], ptr, width)
  {
    FindFirst(fbs, fb => AreaMatches(fb, ptr, width))
  }
}
