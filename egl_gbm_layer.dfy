// src/backends/drm/egl_gbm_layer.cpp: the layer of a DRM pipeline that is
// rendered with EGL on GBM, or scanned out directly from a client's dmabuf.
// When direct scanout of a surface fails, the surface is sent dmabuf
// feedback (linux-dmabuf protocol, version 4): scanout tranches that list
// the format/modifier pairs the pipeline can scan out and that have not
// failed before. Rendering, buffer import and the test commit are not part
// of this model; their outcomes are parameters.
module EglGbmLayers {
  import opened Common

  type BufferId = nat
  type SurfaceId = nat

  /** A damage region, as a set of rectangles. */
  type Region = set<Rect>

  /** A format table: the modifiers listed for each DRM format. */
  type FormatTable = map<nat, seq<nat>>

  /** LinuxDmaBufV1Feedback::TrancheFlag. */
  datatype TrancheFlag = ScanoutFlag

  /** A LinuxDmaBufV1Feedback::Tranche: target device, flags, format table. */
  datatype Tranche = Tranche(device: nat, flags: set<TrancheFlag>, formatTable: FormatTable)

  /** A LinuxDmaBufV1ClientBuffer: its format, the modifier of each plane, and its size. */
  datatype DmabufBuffer = DmabufBuffer(format: nat, planeModifiers: seq<nat>, size: Size)

  /** A setTranches call on a surface's dmabuf feedback. */
  datatype FeedbackEvent = SetTranches(surface: SurfaceId, tranches: seq<Tranche>)

  /** A format's modifiers in a table, empty when the format is absent (QMap::operator[] on a const map). */
  function Modifiers(t: FormatTable, f: nat): seq<nat>
  {
    if f in t then t[f] else []
  }

  /** The modifiers of mods, in order, that the pipeline supports and that have not been attempted. */
  function FilterMods(mods: seq<nat>, drm: seq<nat>, attempted: seq<nat>): (r: seq<nat>)
    ensures forall m :: m in r <==> m in mods && m in drm && m !in attempted
    ensures |r| <= |mods|
    decreases |mods|
  {
    if mods == [] then []
    else
      var init := mods[..|mods| - 1];
      var m := mods[|mods| - 1];
      assert mods == init + [m];
      FilterMods(init, drm, attempted) + (if m in drm && m !in attempted then [m] else [])
  }

  /** The scanout format table of one EGL tranche, over the formats in keys. */
  function FilterTable(table: FormatTable, drmFormats: FormatTable, attempted: FormatTable, keys: set<nat>): (r: FormatTable)
    ensures forall f :: f in r ==> f in keys && f in table && r[f] != []
    ensures forall f, m :: f in r && m in r[f] ==> m in table[f] && m in Modifiers(drmFormats, f) && m !in Modifiers(attempted, f)
  {
    map f | f in keys && f in table && FilterMods(table[f], Modifiers(drmFormats, f), Modifiers(attempted, f)) != []
      :: FilterMods(table[f], Modifiers(drmFormats, f), Modifiers(attempted, f))
  }

  /** Every modifier a tranche lists for a format in keys, that the pipeline supports and that was not attempted, is kept. */
  lemma FilterTableComplete(table: FormatTable, drmFormats: FormatTable, attempted: FormatTable, keys: set<nat>, f: nat, m: nat)
    requires f in keys && f in table && m in table[f]
    requires m in Modifiers(drmFormats, f) && m !in Modifiers(attempted, f)
    ensures var r := FilterTable(table, drmFormats, attempted, keys);
      f in r && m in r[f]
  {
  }

  /** The scanout tranche made from one EGL tranche. */
  function ScanoutTrancheOf(t: Tranche, drmFormats: FormatTable, attempted: FormatTable, device: nat): Tranche
  {
    Tranche(device, {ScanoutFlag}, FilterTable(t.formatTable, drmFormats, attempted, t.formatTable.Keys))
  }

  /** The scanout tranches of the EGL tranches, in order, leaving out those with an empty table. */
  function ScanoutTranches(tranches: seq<Tranche>, drmFormats: FormatTable, attempted: FormatTable, device: nat): (r: seq<Tranche>)
    ensures |r| <= |tranches|
    ensures forall t :: t in r ==> t.device == device && t.flags == {ScanoutFlag} && t.formatTable != map[]
    decreases |tranches|
  {
    if tranches == [] then []
    else
      var t := ScanoutTrancheOf(tranches[0], drmFormats, attempted, device);
      (if t.formatTable != map[] then [t] else []) + ScanoutTranches(tranches[1..], drmFormats, attempted, device)
  }

  /** Every scanout tranche is made from one of the EGL tranches. */
  lemma {:induction false} ScanoutTrancheOrigin(tranches: seq<Tranche>, drmFormats: FormatTable, attempted: FormatTable, device: nat,
                                                t: Tranche) returns (e: Tranche)
    requires t in ScanoutTranches(tranches, drmFormats, attempted, device)
    ensures e in tranches && t == ScanoutTrancheOf(e, drmFormats, attempted, device)
    decreases |tranches|
  {
    var head := ScanoutTrancheOf(tranches[0], drmFormats, attempted, device);
    if head.formatTable != map[] && t == head {
      e := tranches[0];
    } else {
      e := ScanoutTrancheOrigin(tranches[1..], drmFormats, attempted, device, t);
    }
  }

  /** Every EGL tranche that leaves a non-empty scanout table is offered. */
  lemma {:induction false} ScanoutTranchesComplete(tranches: seq<Tranche>, drmFormats: FormatTable, attempted: FormatTable, device: nat,
                                                   i: nat)
    requires i < |tranches|
    requires ScanoutTrancheOf(tranches[i], drmFormats, attempted, device).formatTable != map[]
    ensures ScanoutTrancheOf(tranches[i], drmFormats, attempted, device) in ScanoutTranches(tranches, drmFormats, attempted, device)
    decreases |tranches|
  {
    var rest := ScanoutTranches(tranches[1..], drmFormats, attempted, device);
    if i == 0 {
      assert ScanoutTranches(tranches, drmFormats, attempted, device)
        == [ScanoutTrancheOf(tranches[0], drmFormats, attempted, device)] + rest;
    } else {
      assert tranches[1..][i - 1] == tranches[i];
      ScanoutTranchesComplete(tranches[1..], drmFormats, attempted, device, i - 1);
      var r := ScanoutTranches(tranches, drmFormats, attempted, device);
      assert r[|r| - |rest|..] == rest;
    }
  }

  /**
   * A modifier is offered for scanout only if some EGL tranche lists it for
   * that format, the pipeline supports it and it has not been attempted.
   */
  lemma ScanoutTranchesOffer(tranches: seq<Tranche>, drmFormats: FormatTable, attempted: FormatTable, device: nat,
                             t: Tranche, f: nat, m: nat)
    requires t in ScanoutTranches(tranches, drmFormats, attempted, device)
    requires f in t.formatTable && m in t.formatTable[f]
    ensures m in Modifiers(drmFormats, f) && m !in Modifiers(attempted, f)
    ensures exists e :: e in tranches && f in e.formatTable && m in e.formatTable[f]
  {
    var e := ScanoutTrancheOrigin(tranches, drmFormats, attempted, device, t);
    assert f in e.formatTable && m in e.formatTable[f];
  }

  /** The attempted modifiers after a failed buffer of format f and first-plane modifier m. */
  function AddAttempt(attempted: FormatTable, f: nat, m: nat): (r: FormatTable)
    ensures m in Modifiers(r, f)
    ensures forall g :: g != f ==> Modifiers(r, g) == Modifiers(attempted, g)
    ensures forall x :: x in Modifiers(r, f) <==> x in Modifiers(attempted, f) || x == m
  {
    if m in Modifiers(attempted, f) then attempted else attempted[f := Modifiers(attempted, f) + [m]]
  }

  /** No format lists a modifier twice. */
  predicate AttemptsDistinct(attempted: FormatTable)
  {
    forall f :: f in attempted ==> NoDup(attempted[f])
  }

  /** Recording an attempt keeps the lists free of duplicates. */
  lemma AddAttemptDistinct(attempted: FormatTable, f: nat, m: nat)
    requires AttemptsDistinct(attempted)
    ensures AttemptsDistinct(AddAttempt(attempted, f, m))
  {
    if m !in Modifiers(attempted, f) {
      if f in attempted {
        NoDupSnoc(attempted[f], m);
      }
      assert NoDup(Modifiers(attempted, f) + [m]);
    }
  }

  /** Once a modifier has failed, it is never offered for scanout again. */
  lemma FailedModifierNotOffered(tranches: seq<Tranche>, drmFormats: FormatTable, attempted: FormatTable, device: nat,
                                 f: nat, m: nat, t: Tranche)
    requires t in ScanoutTranches(tranches, drmFormats, AddAttempt(attempted, f, m), device)
    ensures f in t.formatTable ==> m !in t.formatTable[f]
  {
    if f in t.formatTable && m in t.formatTable[f] {
      ScanoutTranchesOffer(tranches, drmFormats, AddAttempt(attempted, f, m), device, t, f, m);
    }
  }

  /** The loop over one tranche's modifiers of a format. */
  method FilterModifiers(mods: seq<nat>, drm: seq<nat>, attempted: seq<nat>) returns (kept: seq<nat>)
    ensures kept == FilterMods(mods, drm, attempted)
  {
    kept := [];
    for i := 0 to |mods|
      invariant kept == FilterMods(mods[..i], drm, attempted)
    {
      assert mods[..i + 1][..i] == mods[..i];
      if mods[i] in drm && mods[i] !in attempted {
        kept := kept + [mods[i]];
      }
    }
    assert mods[..|mods|] == mods;
  }

  /** The loop over one tranche's format table, in the table's own order. */
  method FilterFormatTable(table: FormatTable, drmFormats: FormatTable, attempted: FormatTable) returns (r: FormatTable)
    ensures r == FilterTable(table, drmFormats, attempted, table.Keys)
  {
    r := map[];
    var keys := table.Keys;
    while keys != {}
      invariant keys <= table.Keys
      invariant r == FilterTable(table, drmFormats, attempted, table.Keys - keys)
      decreases |keys|
    {
      var f :| f in keys;
      var kept := FilterModifiers(table[f], Modifiers(drmFormats, f), Modifiers(attempted, f));
      FilterTableStep(table, drmFormats, attempted, table.Keys - keys, f);
      if kept != [] {
        r := r[f := kept];
      }
      assert table.Keys - (keys - {f}) == (table.Keys - keys) + {f};
      keys := keys - {f};
    }
  }

  /** Taking one more format into the scanout table. */
  lemma FilterTableStep(table: FormatTable, drmFormats: FormatTable, attempted: FormatTable, done: set<nat>, f: nat)
    requires f in table && f !in done
    ensures var kept := FilterMods(table[f], Modifiers(drmFormats, f), Modifiers(attempted, f));
      FilterTable(table, drmFormats, attempted, done + {f})
      == if kept != [] then FilterTable(table, drmFormats, attempted, done)[f := kept] else FilterTable(table, drmFormats, attempted, done)
  {
  }

  /** One step of a loop that keeps or drops x ahead of tail. */
  lemma KeepStep<T>(acc: seq<T>, keep: bool, x: T, tail: seq<T>, whole: seq<T>)
    requires whole == (if keep then [x] else []) + tail
    ensures (if keep then acc + [x] else acc) + tail == acc + whole
  {
    if keep {
      assert acc + [x] + tail == acc + ([x] + tail);
    } else {
      assert [] + tail == tail;
    }
  }

  /** The loop of sendDmabufFeedback over the EGL tranches. */
  method BuildScanoutTranches(tranches: seq<Tranche>, drmFormats: FormatTable, attempted: FormatTable, device: nat)
    returns (scanoutTranches: seq<Tranche>)
    ensures scanoutTranches == ScanoutTranches(tranches, drmFormats, attempted, device)
  {
    scanoutTranches := [];
    var rest := tranches;
    while rest != []
      invariant scanoutTranches + ScanoutTranches(rest, drmFormats, attempted, device)
             == ScanoutTranches(tranches, drmFormats, attempted, device)
      decreases |rest|
    {
      var table := FilterFormatTable(rest[0].formatTable, drmFormats, attempted);
      var t := Tranche(device, {ScanoutFlag}, table);
      KeepStep(scanoutTranches, table != map[], t, ScanoutTranches(rest[1..], drmFormats, attempted, device),
               ScanoutTranches(rest, drmFormats, attempted, device));
      if table != map[] {
        scanoutTranches := scanoutTranches + [t];
      }
      rest := rest[1..];
    }
  }

  /** The pipeline the layer belongs to. */
  class Pipeline {
    /** The formats and modifiers the pipeline's primary plane supports. */
    var formats: FormatTable
    var sourceSize: Size
    /** The device id of the pipeline's GPU. */
    const deviceId: nat

    constructor(formats: FormatTable, sourceSize: Size, deviceId: nat)
      ensures this.formats == formats && this.sourceSize == sourceSize && this.deviceId == deviceId
    {
      this.formats, this.sourceSize, this.deviceId := formats, sourceSize, deviceId;
    }
  }

  /** A surface item offered for direct scanout. */
  class SurfaceItem {
    /** The item is a SurfaceItemWayland. */
    const isWayland: bool
    const surface: Option<SurfaceId>
    var damage: Region

    constructor(isWayland: bool, surface: Option<SurfaceId>, damage: Region)
      ensures this.isWayland == isWayland && this.surface == surface && this.damage == damage
    {
      this.isWayland, this.surface, this.damage := isWayland, surface, damage;
    }
  }

  /**
   * The cases in which scanout returns false before touching anything:
   * direct scanout disabled, an item that is not a Wayland surface item or
   * has no surface, no dmabuf buffer, a buffer without planes, or a buffer
   * whose size is not the pipeline's source size.
   */
  predicate ScanoutRejected(disabled: bool, isWayland: bool, surface: Option<SurfaceId>,
                            buffer: Option<DmabufBuffer>, sourceSize: Size)
  {
    disabled || !isWayland || surface.None? || buffer.None?
    || buffer.value.planeModifiers == [] || buffer.value.size != sourceSize
  }

  /** EglGbmLayer. */
  class EglGbmLayer {
    const pipeline: Pipeline
    /** The tranches of the EGL backend's linux-dmabuf global. */
    const eglTranches: seq<Tranche>
    /** KWIN_DRM_NO_DIRECT_SCANOUT is set to 1. */
    const directScanoutDisabled: bool
    /** Whether a surface has a dmabuf feedback object. */
    const hasFeedback: SurfaceId -> bool
    /** The scanout candidate: its surface, whether it was attempted this frame, its failed modifiers by format. */
    var candidateSurface: Option<SurfaceId>
    var attemptedThisFrame: bool
    var attemptedFormats: FormatTable
    var scanoutBuffer: Option<BufferId>
    var currentBuffer: Option<BufferId>
    var currentDamage: Region
    var feedback: seq<FeedbackEvent>

    predicate Valid()
      reads this
    {
      AttemptsDistinct(attemptedFormats)
    }

    constructor(pipeline: Pipeline, eglTranches: seq<Tranche>, directScanoutDisabled: bool, hasFeedback: SurfaceId -> bool)
      ensures Valid()
      ensures this.pipeline == pipeline && this.eglTranches == eglTranches
      ensures this.directScanoutDisabled == directScanoutDisabled && this.hasFeedback == hasFeedback
      ensures candidateSurface.None? && !attemptedThisFrame && attemptedFormats == map[]
      ensures scanoutBuffer.None? && currentBuffer.None? && currentDamage == {} && feedback == []
    {
      this.pipeline, this.eglTranches := pipeline, eglTranches;
      this.directScanoutDisabled, this.hasFeedback := directScanoutDisabled, hasFeedback;
      candidateSurface, attemptedThisFrame, attemptedFormats := None, false, map[];
      scanoutBuffer, currentBuffer, currentDamage, feedback := None, None, {}, [];
    }

    /** currentBuffer: the scanout buffer if there is one, otherwise the rendered buffer. */
    function CurrentBuffer(): (b: Option<BufferId>)
      reads this
      ensures HasDirectScanoutBuffer() ==> b == scanoutBuffer
      ensures !HasDirectScanoutBuffer() ==> b == currentBuffer
    {
      if scanoutBuffer.Some? then scanoutBuffer else currentBuffer
    }

    function HasDirectScanoutBuffer(): bool
      reads this
    {
      scanoutBuffer.Some?
    }

    /**
     * beginFrame: drops the scanout buffer; a candidate that was not
     * attempted in the last frame has its feedback cleared and is
     * forgotten. Starting to render is not part of this model.
     */
    method BeginFrame()
      modifies this`scanoutBuffer, this`candidateSurface, this`attemptedThisFrame, this`feedback
      ensures !HasDirectScanoutBuffer() && CurrentBuffer() == currentBuffer && !attemptedThisFrame
      ensures candidateSurface == if old(attemptedThisFrame) then old(candidateSurface) else None
      ensures feedback == old(feedback)
        + if !old(attemptedThisFrame) && old(candidateSurface).Some? && hasFeedback(old(candidateSurface).value)
          then [SetTranches(old(candidateSurface).value, [])] else []
    {
      scanoutBuffer := None;
      if !attemptedThisFrame && candidateSurface.Some? {
        if hasFeedback(candidateSurface.value) {
          feedback := feedback + [SetTranches(candidateSurface.value, [])];
        }
        candidateSurface := None;
      }
      attemptedThisFrame := false;
    }

    /** endFrame, given what ending the rendering returned: its buffer and damage, if any. */
    method EndFrame(rendered: Option<(BufferId, Region)>)
      modifies this`currentBuffer, this`currentDamage
      ensures rendered.Some? ==> currentBuffer == Some(rendered.value.0) && currentDamage == rendered.value.1
      ensures rendered.None? ==> currentBuffer == old(currentBuffer) && currentDamage == old(currentDamage)
    {
      if rendered.Some? {
        currentBuffer, currentDamage := Some(rendered.value.0), rendered.value.1;
      }
    }

    /** renderTestBuffer: renders a cleared frame and reports whether the current buffer changed. */
    method RenderTestBuffer(rendered: Option<(BufferId, Region)>) returns (changed: bool)
      modifies this`scanoutBuffer, this`candidateSurface, this`attemptedThisFrame, this`feedback
      modifies this`currentBuffer, this`currentDamage
      ensures changed <==> currentBuffer != old(currentBuffer)
      ensures changed ==> rendered.Some?
      ensures !HasDirectScanoutBuffer() && !attemptedThisFrame
      ensures currentBuffer == if rendered.Some? then Some(rendered.value.0) else old(currentBuffer)
    {
      var oldBuffer := currentBuffer;
      BeginFrame();
      EndFrame(rendered);
      changed := currentBuffer != oldBuffer;
    }

    /** testBuffer: renders a test frame when the surface does not fit the pipeline, then returns the rendered buffer. */
    method TestBuffer(surfaceFits: bool, rendered: Option<(BufferId, Region)>) returns (b: Option<BufferId>)
      modifies this`scanoutBuffer, this`candidateSurface, this`attemptedThisFrame, this`feedback
      modifies this`currentBuffer, this`currentDamage
      ensures b == currentBuffer
      ensures surfaceFits ==> currentBuffer == old(currentBuffer) && scanoutBuffer == old(scanoutBuffer)
      ensures !surfaceFits ==> (!HasDirectScanoutBuffer()
        && currentBuffer == if rendered.Some? then Some(rendered.value.0) else old(currentBuffer))
    {
      if !surfaceFits {
        var _ := RenderTestBuffer(rendered);
      }
      b := currentBuffer;
    }

    /**
     * sendDmabufFeedback: records the failed buffer's format and first-plane
     * modifier, then offers the candidate surface, if it has a feedback
     * object, the scanout tranches that remain.
     */
    method SendDmabufFeedback(failed: DmabufBuffer)
      requires Valid() && candidateSurface.Some? && failed.planeModifiers != []
      modifies this`attemptedFormats, this`feedback
      ensures Valid()
      ensures attemptedFormats == AddAttempt(old(attemptedFormats), failed.format, failed.planeModifiers[0])
      ensures feedback == old(feedback)
        + if hasFeedback(candidateSurface.value)
          then [SetTranches(candidateSurface.value, ScanoutTranches(eglTranches, pipeline.formats, attemptedFormats, pipeline.deviceId))]
          else []
    {
      AddAttemptDistinct(attemptedFormats, failed.format, failed.planeModifiers[0]);
      var m := failed.planeModifiers[0];
      if m !in Modifiers(attemptedFormats, failed.format) {
        attemptedFormats := attemptedFormats[failed.format := Modifiers(attemptedFormats, failed.format) + [m]];
      }
      if hasFeedback(candidateSurface.value) {
        var scanoutTranches := BuildScanoutTranches(eglTranches, pipeline.formats, attemptedFormats, pipeline.deviceId);
        feedback := feedback + [SetTranches(candidateSurface.value, scanoutTranches)];
      }
    }

    /**
     * The event that withdraws the scanout tranches of the previous
     * candidate when another surface takes its place.
     */
    function Dropped(previous: Option<SurfaceId>, next: Option<SurfaceId>): (e: seq<FeedbackEvent>)
      ensures e != [] <==> previous.Some? && previous != next && hasFeedback(previous.value)
      ensures e != [] ==> e == [SetTranches(previous.value, [])]
    {
      if previous.Some? && previous != next && hasFeedback(previous.value) then [SetTranches(previous.value, [])] else []
    }

    /**
     * scanout of item, given the surface's buffer if it is a dmabuf, the
     * buffer's import (None: no framebuffer id) and the test commit's outcome.
     */
    method Scanout(item: SurfaceItem, buffer: Option<DmabufBuffer>, imported: Option<BufferId>, testOk: bool)
      returns (ok: bool)
      requires Valid()
      modifies this`candidateSurface, this`attemptedThisFrame, this`attemptedFormats, this`feedback
      modifies this`scanoutBuffer, this`currentBuffer, this`currentDamage, item`damage
      ensures Valid()
      ensures ScanoutRejected(directScanoutDisabled, item.isWayland, item.surface, buffer, pipeline.sourceSize)
        ==> !ok && unchanged(this) && unchanged(item)
      ensures !ScanoutRejected(directScanoutDisabled, item.isWayland, item.surface, buffer, pipeline.sourceSize)
        ==> candidateSurface == item.surface && attemptedThisFrame
      ensures ok <==> (!ScanoutRejected(directScanoutDisabled, item.isWayland, item.surface, buffer, pipeline.sourceSize)
        && buffer.value.format in pipeline.formats && imported.Some? && testOk)
      ensures ok ==> (HasDirectScanoutBuffer() && CurrentBuffer() == imported && currentBuffer == imported
        && currentDamage == old(item.damage) && item.damage == {} && attemptedFormats == old(attemptedFormats))
      ensures !ok ==> currentBuffer == old(currentBuffer) && currentDamage == old(currentDamage) && item.damage == old(item.damage)
      ensures !ScanoutRejected(directScanoutDisabled, item.isWayland, item.surface, buffer, pipeline.sourceSize) && !ok
        ==> scanoutBuffer == (if buffer.value.format in pipeline.formats then None else old(scanoutBuffer))
      ensures !ScanoutRejected(directScanoutDisabled, item.isWayland, item.surface, buffer, pipeline.sourceSize)
        && (buffer.value.format !in pipeline.formats || imported.None?)
        ==> attemptedFormats == AddAttempt(old(attemptedFormats), buffer.value.format, buffer.value.planeModifiers[0])
      ensures !ScanoutRejected(directScanoutDisabled, item.isWayland, item.surface, buffer, pipeline.sourceSize)
        && (buffer.value.format !in pipeline.formats || imported.None?)
        ==> feedback == old(feedback) + Dropped(old(candidateSurface), item.surface)
              + (if hasFeedback(item.surface.value)
                 then [SetTranches(item.surface.value, ScanoutTranches(eglTranches, pipeline.formats, attemptedFormats, pipeline.deviceId))]
                 else [])
      ensures !ScanoutRejected(directScanoutDisabled, item.isWayland, item.surface, buffer, pipeline.sourceSize)
        && buffer.value.format in pipeline.formats && imported.Some?
        ==> attemptedFormats == old(attemptedFormats) && feedback == old(feedback) + Dropped(old(candidateSurface), item.surface)
    {
      if directScanoutDisabled {
        return false;
      }
      if !item.isWayland || item.surface.None? {
        return false;
      }
      if buffer.None? || buffer.value.planeModifiers == [] || buffer.value.size != pipeline.sourceSize {
        return false;
      }
      if candidateSurface.Some? && candidateSurface != item.surface && hasFeedback(candidateSurface.value) {
        feedback := feedback + [SetTranches(candidateSurface.value, [])];
      }
      candidateSurface := item.surface;
      attemptedThisFrame := true;
      ok := ScanoutBuffer(item, buffer.value, imported, testOk);
    }

    /** The part of scanout after the candidate is set: the format check, the import and the test commit. */
    method ScanoutBuffer(item: SurfaceItem, b: DmabufBuffer, imported: Option<BufferId>, testOk: bool)
      returns (ok: bool)
      requires Valid() && candidateSurface.Some? && b.planeModifiers != []
      modifies this`attemptedFormats, this`feedback, this`scanoutBuffer, this`currentBuffer, this`currentDamage, item`damage
      ensures Valid()
      ensures ok <==> b.format in pipeline.formats && imported.Some? && testOk
      ensures ok ==> (scanoutBuffer == imported && currentBuffer == imported
        && currentDamage == old(item.damage) && item.damage == {} && attemptedFormats == old(attemptedFormats))
      ensures !ok ==> currentBuffer == old(currentBuffer) && currentDamage == old(currentDamage) && item.damage == old(item.damage)
      ensures !ok ==> scanoutBuffer == (if b.format in pipeline.formats then None else old(scanoutBuffer))
      ensures b.format !in pipeline.formats || imported.None?
        ==> attemptedFormats == AddAttempt(old(attemptedFormats), b.format, b.planeModifiers[0])
      ensures b.format !in pipeline.formats || imported.None?
        ==> feedback == old(feedback)
              + (if hasFeedback(candidateSurface.value)
                 then [SetTranches(candidateSurface.value, ScanoutTranches(eglTranches, pipeline.formats, attemptedFormats, pipeline.deviceId))]
                 else [])
      ensures b.format in pipeline.formats && imported.Some? ==> attemptedFormats == old(attemptedFormats) && feedback == old(feedback)
    {
      if b.format !in pipeline.formats {
        SendDmabufFeedback(b);
        return false;
      }
      scanoutBuffer := imported;
      if scanoutBuffer.None? {
        SendDmabufFeedback(b);
        scanoutBuffer := None;
        return false;
      }
      if testOk {
        currentBuffer := scanoutBuffer;
        currentDamage := item.damage;
        item.damage := {};
        return true;
      } else {
        scanoutBuffer := None;
        return false;
      }
    }
  }
}
