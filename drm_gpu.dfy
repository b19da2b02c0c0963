// DrmGpu (src/backends/drm/drm_gpu.cpp): the object that owns one DRM
// device's planes, CRTCs, connectors, pipelines and outputs. Every kernel
// call is an input: the Kernel value answers the constructor's queries, and
// the update, poll and lease methods take the kernel's answers as
// parameters. The methods are proved against the functions of DrmRegistry,
// DrmResources, DrmReconcile, DrmSearch and DrmUpdate.
module DrmGpu {
  import opened Common
  import opened DrmObjects
  import opened DrmResources
  import opened DrmTimestamps
  import opened DrmRegistry
  import opened DrmReconcile
  import opened DrmSearch
  import opened DrmUpdate
  import opened DrmRefresh
  import opened DrmRollback

  /**
   * What the kernel answers while a DrmGpu is constructed: the cursor size
   * and monotonic-timestamp capabilities (None when drmGetCap fails),
   * whether KWIN_DRM_NO_AMS is set, whether the atomic client capability is
   * accepted, the plane ids (None when drmModeGetPlaneResources fails) and
   * each plane's properties, the CRTC ids (None when drmModeGetResources
   * fails) and whether each CRTC's init() succeeds.
   */
  datatype Kernel = Kernel(
    cursorWidthCap: Option<nat>, cursorHeightCap: Option<nat>, monotonicCap: Option<nat>,
    noAms: bool, atomicCapAccepted: bool,
    planeIds: Option<seq<nat>>, planeProbe: nat -> PlaneProbe,
    crtcIds: Option<seq<nat>>, crtcInitOk: nat -> bool)

  /** The default cursor edge when DRM_CAP_CURSOR_WIDTH/HEIGHT cannot be read. */
  const DEFAULT_CURSOR_EDGE: nat := 64

  /** A page-flip event as drmHandleEvent delivers it, with the clock readings the handler takes. */
  datatype Flip = Flip(output: nat, sec: nat, usec: nat, sourceNow: Timespec, monotonicNow: Timespec, steadyNow: int)

  /** One answer of poll() on the DRM fd while waiting for flips. */
  datatype PollResult = PollError(interrupted: bool) | PollTimeout | PollReady(flips: seq<Flip>)

  /** Why waitIdle stopped waiting. */
  datatype WaitExit = Idle | PollFailed | TimedOut | NoMoreAnswers

  /** The cursor edge read from a capability, or the default. */
  function CursorEdge(cap: Option<nat>): (e: nat)
    ensures cap.Some? ==> e == cap.value
    ensures cap.None? ==> e == DEFAULT_CURSOR_EDGE
  {
    if cap.Some? then cap.value else DEFAULT_CURSOR_EDGE
  }

  /** The presentation clock: CLOCK_MONOTONIC exactly when the capability reads 1. */
  function PresentationClock(cap: Option<nat>): (c: Clock)
    ensures c == Monotonic <==> cap == Some(1)
  {
    if cap == Some(1) then Monotonic else Realtime
  }

  /** The flips whose handler will find a hardware output behind the event's user data. */
  predicate FlipsWellFormed(outs: map<nat, OutputObj>, flips: seq<Flip>)
  {
    forall f :: f in flips ==> f.output in outs && outs[f.output].DrmOutput? && f.sec < U32 && f.usec < U32
  }

  predicate ScriptWellFormed(outs: map<nat, OutputObj>, script: seq<PollResult>)
  {
    forall a :: a in script && a.PollReady? ==> FlipsWellFormed(outs, a.flips)
  }

  /** pageFlipHandler for one event. */
  function FlipSpec(r: Registry, clock: Clock, f: Flip): Registry
    requires f.output in r.outs && r.outs[f.output].DrmOutput? && f.sec < U32 && f.usec < U32
  {
    PageFlipSpec(r, f.output, FlipTimestamp(clock, f.sourceNow, f.monotonicNow, f.steadyNow, f.sec, f.usec))
  }

  /** drmHandleEvent: the handler for every pending flip, in order. */
  function FlipsSpec(r: Registry, clock: Clock, flips: seq<Flip>): (r': Registry)
    requires FlipsWellFormed(r.outs, flips)
    ensures r'.outs.Keys == r.outs.Keys && forall o :: o in r.outs ==> r'.outs[o].DrmOutput? == r.outs[o].DrmOutput?
    decreases |flips|
  {
    if flips == [] then r
    else
      assert flips[0] in flips;
      var r1 := FlipSpec(r, clock, flips[0]);
      assert forall f :: f in flips[1..] ==> f in flips;
      FlipsSpec(r1, clock, flips[1..])
  }

  /** dispatchEvents: nothing while the session is inactive, otherwise the pending flips. */
  function DispatchSpec(r: Registry, clock: Clock, active: bool, flips: seq<Flip>): (r': Registry)
    requires FlipsWellFormed(r.outs, flips)
    ensures r'.outs.Keys == r.outs.Keys && forall o :: o in r.outs ==> r'.outs[o].DrmOutput? == r.outs[o].DrmOutput?
  {
    if active then FlipsSpec(r, clock, flips) else r
  }

  /**
   * waitIdle's loop: return once no hardware output awaits a flip; retry
   * after an interrupted poll; give up on any other poll error or after a
   * 30 s timeout; dispatch the events when the fd is readable.
   */
  function WaitIdleSpec(r: Registry, clock: Clock, active: bool, script: seq<PollResult>): (Registry, WaitExit)
    requires ScriptWellFormed(r.outs, script)
    decreases |script|
  {
    if AllIdle(r) then (r, Idle)
    else if script == [] then (r, NoMoreAnswers)
    else
      assert script[0] in script;
      assert forall a :: a in script[1..] ==> a in script;
      match script[0]
      case PollError(interrupted) => if interrupted then WaitIdleSpec(r, clock, active, script[1..]) else (r, PollFailed)
      case PollTimeout => (r, TimedOut)
      case PollReady(flips) =>
        var r1 := DispatchSpec(r, clock, active, flips);
        FlipsKeepScript(r, r1, script[1..]);
        WaitIdleSpec(r1, clock, active, script[1..])
  }

  /** One round of waitIdle's loop, for a registry with a flip still pending. */
  lemma WaitIdleStep(r: Registry, clock: Clock, active: bool, script: seq<PollResult>)
    requires ScriptWellFormed(r.outs, script) && !AllIdle(r) && script != []
    ensures script[0].PollReady? ==>
              && FlipsWellFormed(r.outs, script[0].flips)
              && var r1 := DispatchSpec(r, clock, active, script[0].flips);
                 ScriptWellFormed(r1.outs, script[1..])
                 && WaitIdleSpec(r, clock, active, script) == WaitIdleSpec(r1, clock, active, script[1..])
    ensures script[0] == PollError(true) ==>
              ScriptWellFormed(r.outs, script[1..]) && WaitIdleSpec(r, clock, active, script) == WaitIdleSpec(r, clock, active, script[1..])
    ensures script[0] == PollError(false) ==> WaitIdleSpec(r, clock, active, script) == (r, PollFailed)
    ensures script[0] == PollTimeout ==> WaitIdleSpec(r, clock, active, script) == (r, TimedOut)
  {
    assert script[0] in script;
    assert forall a :: a in script[1..] ==> a in script;
    if script[0].PollReady? {
      FlipsKeepScript(r, DispatchSpec(r, clock, active, script[0].flips), script[1..]);
    }
  }

  lemma FlipsKeepScript(r: Registry, r1: Registry, script: seq<PollResult>)
    requires r1.outs.Keys == r.outs.Keys && forall o :: o in r.outs ==> r1.outs[o].DrmOutput? == r.outs[o].DrmOutput?
    requires ScriptWellFormed(r.outs, script)
    ensures ScriptWellFormed(r1.outs, script)
  {
  }

  /**
   * waitIdle reports Idle exactly when it leaves no hardware output
   * awaiting a flip; it leaves no other way while flips are pending.
   */
  lemma {:induction false} WaitIdleExit(r: Registry, clock: Clock, active: bool, script: seq<PollResult>)
    requires ScriptWellFormed(r.outs, script)
    ensures var (r', why) := WaitIdleSpec(r, clock, active, script);
            (why == Idle <==> AllIdle(r'))
    decreases |script|
  {
    if !AllIdle(r) && script != [] {
      assert script[0] in script;
      assert forall a :: a in script[1..] ==> a in script;
      match script[0]
      case PollError(interrupted) =>
        if interrupted { WaitIdleExit(r, clock, active, script[1..]); }
      case PollTimeout =>
      case PollReady(flips) =>
        var r1 := DispatchSpec(r, clock, active, flips);
        FlipsKeepScript(r, r1, script[1..]);
        WaitIdleExit(r1, clock, active, script[1..]);
    }
  }

  /** Handling flips keeps the registry consistent. */
  lemma {:induction false} FlipsOk(r: Registry, clock: Clock, flips: seq<Flip>)
    requires RegOk(r) && FlipsWellFormed(r.outs, flips)
    ensures RegOk(FlipsSpec(r, clock, flips))
    decreases |flips|
  {
    if flips != [] {
      assert flips[0] in flips;
      var f := flips[0];
      PageFlipEffect(r, f.output, FlipTimestamp(clock, f.sourceNow, f.monotonicNow, f.steadyNow, f.sec, f.usec));
      var r1 := FlipSpec(r, clock, f);
      assert forall g :: g in flips[1..] ==> g in flips;
      FlipsOk(r1, clock, flips[1..]);
    }
  }

  /** Waiting for flips keeps the registry consistent. */
  lemma {:induction false} WaitIdleOk(r: Registry, clock: Clock, active: bool, script: seq<PollResult>)
    requires RegOk(r) && ScriptWellFormed(r.outs, script)
    ensures RegOk(WaitIdleSpec(r, clock, active, script).0)
    decreases |script|
  {
    if !AllIdle(r) && script != [] {
      assert script[0] in script;
      assert forall a :: a in script[1..] ==> a in script;
      match script[0]
      case PollError(interrupted) =>
        if interrupted { WaitIdleOk(r, clock, active, script[1..]); }
      case PollTimeout =>
      case PollReady(flips) =>
        var r1 := DispatchSpec(r, clock, active, flips);
        if active { FlipsOk(r, clock, flips); }
        FlipsKeepScript(r, r1, script[1..]);
        WaitIdleOk(r1, clock, active, script[1..]);
    }
  }

  /** The socket notifier on the DRM file descriptor, switched off while waitIdle polls. */
  class Notifier {
    var enabled: bool

    constructor()
      ensures enabled
    {
      enabled := true;
    }
  }

  /** The platform's switch to a software cursor. */
  class Platform {
    var softwareCursorForced: bool

    constructor()
      ensures !softwareCursorForced
    {
      softwareCursorForced := false;
    }
  }

  /** The DRM lease device's DRM-master flag. */
  class LeaseDevice {
    var drmMaster: bool

    constructor()
      ensures !drmMaster
    {
      drmMaster := false;
    }
  }

  class Gpu {
    // hardware, fixed after construction
    const atomicModeSetting: bool
    const cursorSize: Size
    const presentationClock: Clock
    const planes: seq<Plane>
    const crtcs: seq<Crtc>
    // m_connectors
    var connectors: seq<Connector>
    // the owned objects and the lists that track them (see DrmRegistry.Registry)
    var pipes: map<nat, Pipeline>
    var pipelines: seq<nat>
    var outs: map<nat, OutputObj>
    var outputs: seq<nat>
    var drmOutputs: seq<nat>
    var leaseOuts: map<nat, LeaseOutput>
    var leaseOutputs: seq<nat>
    var nextId: nat
    var deleted: set<nat>
    var events: seq<GpuEvent>
    // the socket notifier, the platform's forced software cursor, the lease device's DRM-master flag
    const notifier: Notifier
    const platform: Platform
    const leaseDevice: LeaseDevice

    function Reg(): Registry
      reads this
    {
      Registry(pipes, pipelines, outs, outputs, drmOutputs, leaseOuts, leaseOutputs, nextId, deleted, events)
    }

    /** The registry is consistent and no connector id is tracked twice. */
    predicate Valid()
      reads this
    {
      RegOk(Reg()) && NoDup(Ids(connectors))
    }

    /**
     * The constructor: cursor size from the capabilities (64 when a
     * capability cannot be read), the presentation clock, and the
     * resources discovered by initDrmResources unless KWIN_DRM_NO_AMS is set.
     */
    constructor(k: Kernel)
      ensures Valid() && NoDup(crtcs) && fresh(this)
      ensures cursorSize == Size(CursorEdge(k.cursorWidthCap), CursorEdge(k.cursorHeightCap))
      ensures presentationClock == PresentationClock(k.monotonicCap)
      ensures k.noAms ==> !atomicModeSetting && planes == [] && crtcs == []
      ensures !k.noAms ==> (atomicModeSetting, planes, crtcs) == Discover(k)
      ensures Reg() == Registry(map[], [], map[], [], [], map[], [], 0, {}, [])
      ensures connectors == [] && notifier.enabled && !platform.softwareCursorForced && !leaseDevice.drmMaster
    {
      cursorSize := Size(CursorEdge(k.cursorWidthCap), CursorEdge(k.cursorHeightCap));
      presentationClock := PresentationClock(k.monotonicCap);
      if k.noAms {
        atomicModeSetting, planes, crtcs := false, [], [];
      } else {
        var atomic, ps, cs := InitDrmResources(k);
        atomicModeSetting, planes, crtcs := atomic, ps, cs;
      }
      connectors := [];
      pipes, pipelines, outs, outputs, drmOutputs := map[], [], map[], [], [];
      leaseOuts, leaseOutputs, nextId, deleted, events := map[], [], 0, {}, [];
      notifier := new Notifier();
      platform := new Platform();
      leaseDevice := new LeaseDevice();
    }

    /**
     * initDrmResources: the planes, the choice of atomic mode, and the
     * CRTCs with their primary planes.
     */
    static method InitDrmResources(k: Kernel) returns (atomic: bool, planes: seq<Plane>, crtcs: seq<Crtc>)
      ensures (atomic, planes, crtcs) == Discover(k)
      ensures NoDup(crtcs)
    {
      DiscoverDistinct(k);
      planes := [];
      if k.atomicCapAccepted && k.planeIds.Some? {
        planes := CreatePlanes(k.planeIds.value, k.planeProbe);
      }
      atomic := |planes| > 0;
      assert atomic == AtomicMode(k.atomicCapAccepted, k.planeIds, k.planeProbe);
      if k.crtcIds.None? {
        crtcs := [];
        return;
      }
      crtcs := CreateCrtcs(atomic, planes, k.crtcIds.value, k.crtcInitOk);
    }

    /** The plane loop of initDrmResources: a plane is kept when its init() succeeds. */
    static method CreatePlanes(ids: seq<nat>, probe: nat -> PlaneProbe) returns (ps: seq<Plane>)
      ensures ps == InitPlanes(ids, probe)
    {
      ps := [];
      var i := 0;
      while i < |ids|
        invariant 0 <= i <= |ids|
        invariant ps + InitPlanes(ids[i..], probe) == InitPlanes(ids, probe)
      {
        InitPlanesAt(ids, probe, i);
        var pr := probe(ids[i]);
        if pr.initOk {
          SeqAssoc(ps, [PlaneOf(ids[i], probe)], InitPlanes(ids[i + 1..], probe));
          ps := ps + [Plane(ids[i], pr.primary, pr.possibleCrtcs, pr.boundCrtc, pr.formats)];
        }
        i := i + 1;
      }
      assert ids[i..] == [];
    }

    /** The CRTC loop of initDrmResources. */
    static method CreateCrtcs(atomic: bool, ps: seq<Plane>, crtcIds: seq<nat>, crtcInitOk: nat -> bool) returns (cs: seq<Crtc>)
      ensures cs == AssignCrtcs(atomic, ps, crtcIds, 0, crtcInitOk).crtcs
    {
      var pool := ps;
      cs := [];
      var i := 0;
      while i < |crtcIds|
        invariant 0 <= i <= |crtcIds|
        invariant cs + AssignCrtcs(atomic, pool, crtcIds, i, crtcInitOk).crtcs
                  == AssignCrtcs(atomic, ps, crtcIds, 0, crtcInitOk).crtcs
      {
        var pool', added := CrtcStep(atomic, pool, crtcIds, i, crtcInitOk);
        ghost var tail := AssignCrtcs(atomic, pool', crtcIds, i + 1, crtcInitOk).crtcs;
        SeqAssoc(cs, added, tail);
        cs, pool, i := cs + added, pool', i + 1;
      }
    }

    /** One pass of the CRTC loop: the CRTC kept (if any) and the pool left for the next CRTC. */
    static method CrtcStep(atomic: bool, pool: seq<Plane>, crtcIds: seq<nat>, i: nat, crtcInitOk: nat -> bool)
      returns (pool': seq<Plane>, added: seq<Crtc>)
      requires i < |crtcIds|
      ensures added + AssignCrtcs(atomic, pool', crtcIds, i + 1, crtcInitOk).crtcs
              == AssignCrtcs(atomic, pool, crtcIds, i, crtcInitOk).crtcs
    {
      var primary := ChoosePrimary(pool, i, crtcIds[i]);
      pool', added := pool, [];
      if atomic && primary.None? {
        return;
      }
      if primary.Some? {
        pool' := RemoveOne(pool, primary.value);
      }
      if crtcInitOk(crtcIds[i]) {
        var planeId := if primary.Some? then Some(primary.value.id) else None;
        added := [Crtc(crtcIds[i], i, planeId)];
      }
    }

    /** The inner loop of initDrmResources: the primary plane for the CRTC with this index and id. */
    static method ChoosePrimary(pool: seq<Plane>, index: nat, crtcId: nat) returns (primary: Option<Plane>)
      ensures primary == PickPrimary(pool, index, crtcId, None)
    {
      primary := None;
      var j := 0;
      while j < |pool|
        invariant 0 <= j <= |pool|
        invariant PickPrimary(pool[j..], index, crtcId, primary) == PickPrimary(pool, index, crtcId, None)
      {
        if Eligible(pool[j], index) {
          primary := Some(pool[j]);
          if pool[j].boundCrtc == crtcId {
            return;
          }
        }
        j := j + 1;
      }
    }

    /** findOutput: the first tracked hardware output on the connector. */
    method FindOutput(connector: nat) returns (o: Option<nat>)
      ensures o == FindOutputIn(Reg(), connector)
    {
      var i := 0;
      while i < |drmOutputs|
        invariant 0 <= i <= |drmOutputs|
        invariant FirstOutput(drmOutputs, outs, connector, i) == FindOutputIn(Reg(), connector)
      {
        if OutputOn(outs, drmOutputs[i], connector) {
          return Some(drmOutputs[i]);
        }
        i := i + 1;
      }
      return None;
    }

    /** findLeaseOutput: the first tracked lease output whose pipeline drives the connector. */
    method FindLeaseOutput(connector: nat) returns (l: Option<nat>)
      ensures l == FindLeaseOutputIn(Reg(), connector)
    {
      var i := 0;
      while i < |leaseOutputs|
        invariant 0 <= i <= |leaseOutputs|
        invariant FirstLease(leaseOutputs, leaseOuts, pipes, connector, i) == FindLeaseOutputIn(Reg(), connector)
      {
        if LeaseOn(leaseOuts, pipes, leaseOutputs[i], connector) {
          return Some(leaseOutputs[i]);
        }
        i := i + 1;
      }
      return None;
    }

    /** removeOutput. */
    method RemoveOutput(o: nat)
      requires Valid() && o in drmOutputs
      modifies this`drmOutputs, this`outputs, this`events, this`deleted, this`pipelines
      ensures Valid() && Reg() == RemoveOutputSpec(old(Reg()), o)
    {
      RemoveOutputEffect(Reg(), o);
      UntrackOutput(o);
    }

    /** The list updates and deletions of removeOutput. */
    method UntrackOutput(o: nat)
      requires o in outs && outs[o].DrmOutput?
      modifies this`drmOutputs, this`outputs, this`events, this`deleted, this`pipelines
      ensures Reg() == RemoveOutputSpec(old(Reg()), o)
    {
      ghost var r' := RemoveOutputSpec(Reg(), o);
      var p := outs[o].pipeline;
      drmOutputs := RemoveOne(drmOutputs, o);
      outputs := RemoveOne(outputs, o);
      events := events + [OutputRemoved(o)];
      if p.Some? {
        pipelines := RemoveOne(pipelines, p.value);
        deleted := deleted + {o} + {p.value};
      } else {
        deleted := deleted + {o} + {};
      }
      assert Reg() == r';
    }

    /** removeLeaseOutput. */
    method RemoveLeaseOutput(l: nat)
      requires Valid() && l in leaseOutputs
      modifies this`leaseOutputs, this`pipelines, this`deleted
      ensures Valid() && Reg() == RemoveLeaseOutputSpec(old(Reg()), l)
    {
      RemoveLeaseOutputEffect(Reg(), l);
      UntrackLeaseOutput(l);
    }

    /** The list updates and deletions of removeLeaseOutput. */
    method UntrackLeaseOutput(l: nat)
      requires l in leaseOuts
      modifies this`leaseOutputs, this`pipelines, this`deleted
      ensures Reg() == RemoveLeaseOutputSpec(old(Reg()), l)
    {
      var p := leaseOuts[l].pipeline;
      leaseOutputs := RemoveOne(leaseOutputs, l);
      pipelines := RemoveOne(pipelines, p);
      deleted := deleted + {l, p};
    }

    /** createVirtualOutput. */
    method CreateVirtualOutput(name: string, scale: real, placeholder: bool) returns (o: nat)
      requires Valid()
      modifies this`outs, this`outputs, this`nextId, this`events
      ensures Valid() && Reg() == CreateVirtualOutputSpec(old(Reg()), name, scale, placeholder)
      ensures o == old(nextId) && o in outputs && o !in old(outputs)
    {
      CreateVirtualOutputEffect(Reg(), name, scale, placeholder);
      o := AppendVirtualOutput(name, scale, placeholder);
    }

    /** The new VirtualOutput object, appended to m_outputs and announced. */
    method AppendVirtualOutput(name: string, scale: real, placeholder: bool) returns (o: nat)
      modifies this`outs, this`outputs, this`nextId, this`events
      ensures Reg() == CreateVirtualOutputSpec(old(Reg()), name, scale, placeholder) && o == old(nextId)
    {
      o := nextId;
      outs := outs[o := VirtualOutput(name, scale, placeholder)];
      outputs := outputs + [o];
      nextId := o + 1;
      events := events + [OutputEnabled(o), OutputAdded(o)];
    }

    /** removeVirtualOutput. */
    method RemoveVirtualOutput(o: nat)
      requires Valid() && (o in outs ==> outs[o].VirtualOutput?)
      modifies this`outputs, this`events, this`deleted
      ensures Valid() && Reg() == RemoveVirtualOutputSpec(old(Reg()), o)
    {
      RemoveVirtualOutputEffect(Reg(), o);
      UntrackVirtualOutput(o);
    }

    /** The list update and deletion of removeVirtualOutput. */
    method UntrackVirtualOutput(o: nat)
      modifies this`outputs, this`events, this`deleted
      ensures Reg() == RemoveVirtualOutputSpec(old(Reg()), o)
    {
      if o in outputs {
        outputs := RemoveOne(outputs, o);
        events := events + [OutputRemoved(o)];
        deleted := deleted + {o};
      }
    }

    /** isFormatSupported. */
    method IsFormatSupportedOn(format: nat) returns (ok: bool)
      ensures ok == IsFormatSupported(atomicModeSetting, planes, format)
    {
      if !atomicModeSetting {
        return format == DRM_FORMAT_XRGB8888 || format == DRM_FORMAT_ARGB8888;
      }
      var i := 0;
      while i < |planes|
        invariant 0 <= i <= |planes|
        invariant forall j :: 0 <= j < i && planes[j].primary ==> format in planes[j].formats
      {
        if planes[i].primary && format !in planes[i].formats {
          return false;
        }
        i := i + 1;
      }
      return true;
    }

    // ------------------------------------------------------ page flips

    /** pageFlipHandler for an event whose user data is hardware output f.output. */
    method PageFlipped(f: Flip)
      requires f.output in outs && outs[f.output].DrmOutput? && f.sec < U32 && f.usec < U32
      modifies this`outs, this`events
      ensures Reg() == FlipSpec(old(Reg()), presentationClock, f)
    {
      if f.output !in outputs {
        return;
      }
      var ts := FlipTimestamp(presentationClock, f.sourceNow, f.monotonicNow, f.steadyNow, f.sec, f.usec);
      outs := outs[f.output := outs[f.output].(flipPending := false)];
      events := events + [FrameCompleted(f.output, ts)];
    }

    /** dispatchEvents: while the session is active, drmHandleEvent runs the handler for every pending flip. */
    method DispatchEvents(active: bool, flips: seq<Flip>)
      requires FlipsWellFormed(outs, flips)
      modifies this`outs, this`events
      ensures Reg() == DispatchSpec(old(Reg()), presentationClock, active, flips)
    {
      if !active {
        return;
      }
      var i := 0;
      assert flips[i..] == flips;
      while i < |flips|
        invariant 0 <= i <= |flips|
        invariant FlipsWellFormed(outs, flips[i..])
        invariant FlipsSpec(Reg(), presentationClock, flips[i..]) == FlipsSpec(old(Reg()), presentationClock, flips)
      {
        assert flips[i..][0] == flips[i] && flips[i..][1..] == flips[i + 1..];
        assert flips[i] in flips[i..];
        assert forall g :: g in flips[i + 1..] ==> g in flips[i..];
        PageFlipped(flips[i]);
        i := i + 1;
      }
    }

    /** The all_of test of waitIdle: no tracked hardware output awaits a flip. */
    method IsIdle() returns (idle: bool)
      ensures idle == AllIdle(Reg())
    {
      var i := 0;
      while i < |drmOutputs|
        invariant 0 <= i <= |drmOutputs|
        invariant forall o :: o in drmOutputs[..i] && o in outs && outs[o].DrmOutput? ==> !outs[o].flipPending
      {
        var o := drmOutputs[i];
        if o in outs && outs[o].DrmOutput? && outs[o].flipPending {
          return false;
        }
        assert drmOutputs[..i + 1] == drmOutputs[..i] + [o];
        i := i + 1;
      }
      assert drmOutputs[..i] == drmOutputs;
      return true;
    }

    /**
     * waitIdle: the socket notifier is off while the loop polls the fd and
     * dispatches events until every hardware output is idle or poll
     * fails or times out; each poll answer is taken from the script.
     */
    method WaitIdle(active: bool, script: seq<PollResult>) returns (why: WaitExit)
      requires Valid() && ScriptWellFormed(outs, script)
      modifies this`outs, this`events, notifier
      ensures (Reg(), why) == WaitIdleSpec(old(Reg()), presentationClock, active, script)
      ensures Valid() && notifier.enabled
    {
      WaitIdleOk(Reg(), presentationClock, active, script);
      notifier.enabled := false;
      why := PollUntilIdle(active, script);
      notifier.enabled := true;
    }

    /** The loop of waitIdle, with the socket notifier switched off. */
    method PollUntilIdle(active: bool, script: seq<PollResult>) returns (why: WaitExit)
      requires ScriptWellFormed(outs, script)
      modifies this`outs, this`events
      ensures (Reg(), why) == WaitIdleSpec(old(Reg()), presentationClock, active, script)
    {
      ghost var goal := WaitIdleSpec(Reg(), presentationClock, active, script);
      var rest := script;
      while true
        invariant ScriptWellFormed(outs, rest)
        invariant WaitIdleSpec(Reg(), presentationClock, active, rest) == goal
        decreases |rest|
      {
        var idle := IsIdle();
        if idle {
          why := Idle;
          break;
        }
        if rest == [] {
          why := NoMoreAnswers;
          break;
        }
        WaitIdleStep(Reg(), presentationClock, active, rest);
        match rest[0] {
          case PollError(interrupted) =>
            if !interrupted {
              why := PollFailed;
              break;
            }
          case PollTimeout =>
            why := TimedOut;
            break;
          case PollReady(flips) =>
            DispatchEvents(active, flips);
        }
        rest := rest[1..];
      }
    }

    // ---------------------------------------------------------- leases

    /** handleLeaseRequest once drmModeCreateLease has answered with (fd, lessee). */
    method HandleLeaseRequest(request: nat, conns: seq<nat>, fd: int, lessee: nat)
      modifies this`events, this`leaseOuts
      ensures Reg() == LeaseRequestSpec(old(Reg()), request, conns, fd, lessee)
    {
      var claimed := CollectLeasable(conns);
      if fd < 0 {
        events := events + [LeaseRequestDenied(request)];
        return;
      }
      events := events + [LeaseRequestGranted(request, fd, lessee)];
      MarkAll(claimed, Lease(request, lessee));
    }

    /** The lease outputs a lease request names that are tracked and not leased, in request order. */
    method CollectLeasable(conns: seq<nat>) returns (collected: seq<nat>)
      ensures collected == Collected(Reg(), conns)
    {
      collected := [];
      var i := 0;
      while i < |conns|
        invariant 0 <= i <= |conns|
        invariant collected == Collected(Reg(), conns[..i])
      {
        var l := conns[i];
        if l in leaseOutputs && l in leaseOuts && leaseOuts[l].lease.None? {
          collected := collected + [l];
        }
        assert conns[..i + 1][..i] == conns[..i] && conns[..i + 1][i] == l;
        i := i + 1;
      }
      assert conns[..i] == conns;
    }

    /** DrmLeaseOutput::leased for each collected output. */
    method MarkAll(collected: seq<nat>, lease: Lease)
      requires forall l :: l in collected ==> l in leaseOuts
      modifies this`leaseOuts
      ensures leaseOuts == MarkLeased(old(leaseOuts), collected, lease)
    {
      var j := 0;
      while j < |collected|
        invariant 0 <= j <= |collected|
        invariant leaseOuts.Keys == old(leaseOuts).Keys
        invariant forall l :: l in leaseOuts ==>
                    leaseOuts[l] == if l in collected[..j] then old(leaseOuts)[l].(lease := Some(lease)) else old(leaseOuts)[l]
      {
        var l := collected[j];
        assert l in collected;
        leaseOuts := leaseOuts[l := leaseOuts[l].(lease := Some(lease))];
        assert collected[..j + 1] == collected[..j] + [l];
        j := j + 1;
      }
      assert collected[..j] == collected;
    }

    /** handleLeaseRevoked: end the lease of every requested tracked output, then revoke the lessee. */
    method HandleLeaseRevoked(conns: seq<nat>, lessee: nat)
      modifies this`leaseOuts, this`events
      ensures Reg() == LeaseRevokedSpec(old(Reg()), conns, lessee)
    {
      var i := 0;
      assert conns[i..] == conns;
      while i < |conns|
        invariant 0 <= i <= |conns|
        invariant EndLeases(Reg(), conns[i..]) == EndLeases(old(Reg()), conns)
      {
        assert conns[i..][0] == conns[i] && conns[i..][1..] == conns[i + 1..];
        var l := conns[i];
        if l in leaseOutputs && l in leaseOuts {
          leaseOuts := leaseOuts[l := leaseOuts[l].(lease := None)];
          events := events + [LeaseEnded(l)];
        }
        i := i + 1;
      }
      events := events + [LesseeRevoked(lessee)];
    }

    // ---------------------------------------------------- updateOutputs

    /** The lessee check of updateOutputs. */
    method CheckLessees(lessees: seq<nat>)
      requires Valid()
      modifies this`events
      ensures Reg() == LesseeCheck(old(Reg()), lessees) && Valid()
    {
      var denied := StaleDenials(leaseOutputs, leaseOuts, lessees);
      events := events + denied;
    }

    /** The loop of the lessee check over m_leaseOutputs: the lease of each stale lease output is denied. */
    static method StaleDenials(ls: seq<nat>, leaseOuts: map<nat, LeaseOutput>, lessees: seq<nat>) returns (denied: seq<GpuEvent>)
      ensures denied == Denials(ls, leaseOuts, lessees)
    {
      denied := [];
      var i := 0;
      assert ls[i..] == ls;
      while i < |ls|
        invariant 0 <= i <= |ls|
        invariant denied + Denials(ls[i..], leaseOuts, lessees) == Denials(ls, leaseOuts, lessees)
      {
        var l := ls[i];
        DenialsAt(ls, i, leaseOuts, lessees);
        ghost var rest := Denials(ls[i + 1..], leaseOuts, lessees);
        if l in leaseOuts && leaseOuts[l].lease.Some? {
          var leaseActive := LesseeListed(lessees, leaseOuts[l].lease.value.lessee);
          if !leaseActive {
            SeqAssoc(denied, [LeaseDenied(l, leaseOuts[l].lease.value.lessee)], rest);
            denied := denied + [LeaseDenied(l, leaseOuts[l].lease.value.lessee)];
          }
        }
        i := i + 1;
      }
    }

    /** The search of drmModeListLessees' answer for one lessee id. */
    static method LesseeListed(lessees: seq<nat>, id: nat) returns (found: bool)
      ensures found <==> id in lessees
    {
      var i := 0;
      while i < |lessees|
        invariant 0 <= i <= |lessees|
        invariant forall j :: 0 <= j < i ==> lessees[j] != id
      {
        if lessees[i] == id {
          return true;
        }
        i := i + 1;
      }
      return false;
    }

    /** The std::find_if over m_connectors. */
    method FindConnector(id: nat) returns (k: Option<nat>)
      ensures k == IndexOfConnector(connectors, id)
    {
      var i := 0;
      while i < |connectors|
        invariant 0 <= i <= |connectors|
        invariant forall j :: 0 <= j < i ==> connectors[j].id != id
      {
        if connectors[i].id == id {
          return Some(i);
        }
        i := i + 1;
      }
      return None;
    }

    /** One iteration of the connector scan for kernel connector id `id`. */
    method ScanOne(id: nat, probe: nat -> ConnectorProbe, removed: seq<nat>) returns (removed': seq<nat>)
      modifies this`connectors
      ensures ScanState(connectors, removed') == ScanStep(ScanState(old(connectors), removed), id, probe)
    {
      removed' := removed;
      var k := FindConnector(id);
      if k.None? {
        var p := probe(id);
        if p.initOk && p.connected {
          connectors := connectors + [Connector(id, true, p.encoders, p.nonDesktop, p.crtcHint)];
        }
      } else {
        var c := Refresh(connectors[k.value], probe(id));
        connectors := connectors[k.value := c];
        if c.connected {
          removed' := RemoveOne(removed, id);
        }
      }
    }

    /** The connector scan: new connected connectors are tracked, and the ids still in removedConnectors are returned. */
    method ScanConnectors(ids: seq<nat>, probe: nat -> ConnectorProbe) returns (removed: seq<nat>)
      modifies this`connectors
      ensures ScanState(connectors, removed) == ScanAll(ScanState(old(connectors), Ids(old(connectors))), ids, probe)
    {
      ghost var goal := ScanAll(ScanState(connectors, Ids(connectors)), ids, probe);
      removed := Ids(connectors);
      var i := 0;
      assert ids[i..] == ids;
      while i < |ids|
        invariant 0 <= i <= |ids|
        invariant ScanAll(ScanState(connectors, removed), ids[i..], probe) == goal
      {
        assert ids[i..][0] == ids[i] && ids[i..][1..] == ids[i + 1..];
        removed := ScanOne(ids[i], probe, removed);
        i := i + 1;
      }
    }

    /** Remove the output, or else the lease output, of a connector that is gone or disconnected. */
    method TearDownConnector(id: nat)
      requires Valid()
      modifies this`drmOutputs, this`outputs, this`events, this`deleted, this`pipelines, this`leaseOutputs
      ensures Valid() && Reg() == Teardown(old(Reg()), id)
    {
      var o := FindOutput(id);
      if o.Some? {
        RemoveOutput(o.value);
      } else {
        var l := FindLeaseOutput(id);
        if l.Some? {
          RemoveLeaseOutput(l.value);
        }
      }
    }

    /**
     * The connector scan of updateOutputs and the teardown of the
     * connectors left in removedConnectors.
     */
    method ReconcileConnectors(ids: seq<nat>, probe: nat -> ConnectorProbe)
      requires Valid()
      modifies this`connectors, this`drmOutputs, this`outputs, this`events, this`deleted, this`pipelines, this`leaseOutputs
      ensures Valid()
      ensures connectors == Reconciled(old(connectors), ids, probe)
      ensures Reg() == TeardownAll(old(Reg()), ScanAll(ScanState(old(connectors), Ids(old(connectors))), ids, probe).removed)
    {
      ghost var c0 := connectors;
      ghost var r0 := Reg();
      var removed := ScanConnectors(ids, probe);
      ReconciledClean(c0, ids, probe);
      assert ScanInv(ScanState(c0, Ids(c0)), c0, [], probe);
      ScanAllInv(ScanState(c0, Ids(c0)), c0, [], ids, probe);
      TearDownRemoved(removed);
    }

    /** The loop over removedConnectors: each is torn down and dropped from m_connectors. */
    method TearDownRemoved(removed: seq<nat>)
      requires Valid()
      modifies this`connectors, this`drmOutputs, this`outputs, this`events, this`deleted, this`pipelines, this`leaseOutputs
      ensures Valid()
      ensures connectors == RemoveConnectors(old(connectors), removed)
      ensures Reg() == TeardownAll(old(Reg()), removed)
    {
      ghost var c0 := connectors;
      ghost var r0 := Reg();
      var j := 0;
      assert removed[j..] == removed;
      while j < |removed|
        invariant 0 <= j <= |removed|
        invariant Valid()
        invariant TeardownAll(Reg(), removed[j..]) == TeardownAll(r0, removed)
        invariant RemoveConnectors(connectors, removed[j..]) == RemoveConnectors(c0, removed)
      {
        assert removed[j..][0] == removed[j] && removed[j..][1..] == removed[j + 1..];
        DropConnector(removed[j]);
        j := j + 1;
      }
    }

    /** One iteration of the teardown loop. */
    method DropConnector(id: nat)
      requires Valid()
      modifies this`connectors, this`drmOutputs, this`outputs, this`events, this`deleted, this`pipelines, this`leaseOutputs
      ensures Valid()
      ensures connectors == RemoveConnector(old(connectors), id)
      ensures Reg() == Teardown(old(Reg()), id)
    {
      TearDownConnector(id);
      RemoveConnectorKeeps(connectors, id);
      connectors := RemoveConnector(connectors, id);
    }

    /** One iteration of the pass collecting the connected connectors. */
    method CollectOne(acc: seq<Connector>, c: Connector) returns (acc': seq<Connector>)
      requires Valid()
      modifies this`drmOutputs, this`outputs, this`events, this`deleted, this`pipelines, this`leaseOutputs
      ensures Valid() && (Reg(), acc') == CollectStep(old(Reg()), acc, c)
    {
      acc' := acc;
      if c.connected {
        var o := FindOutput(c.id);
        acc' := acc + [c];
        if o.Some? {
          ghost var r0 := Reg();
          LogOk(r0, r0.events + [ModesUpdated(o.value)]);
          events := events + [ModesUpdated(o.value)];
          assert Reg() == r0.(events := r0.events + [ModesUpdated(o.value)]);
        }
      } else {
        TearDownConnector(c.id);
      }
    }

    /** The pass over m_connectors that collects the connected ones. */
    method CollectConnected() returns (connected: seq<Connector>)
      requires Valid()
      modifies this`drmOutputs, this`outputs, this`events, this`deleted, this`pipelines, this`leaseOutputs
      ensures Valid()
      ensures (Reg(), connected) == CollectAll(old(Reg()), [], connectors)
    {
      connected := [];
      var i := 0;
      assert connectors[i..] == connectors;
      while i < |connectors|
        invariant 0 <= i <= |connectors|
        invariant Valid()
        invariant CollectAll(Reg(), connected, connectors[i..]) == CollectAll(old(Reg()), [], connectors)
      {
        assert connectors[i..][0] == connectors[i] && connectors[i..][1..] == connectors[i + 1..];
        connected := CollectOne(connected, connectors[i]);
        i := i + 1;
      }
    }

    /** One iteration of the stash loop. */
    method StashOne(o: nat) returns (s: Stashed)
      modifies this`outs, this`pipelines, this`events
      ensures (Reg(), s) == StashStep(old(Reg()), o)
    {
      if o in outs && outs[o].DrmOutput? {
        var out := outs[o];
        if !out.enabled {
          events := events + [OutputEnabled(o)];
        }
        if out.pipeline.Some? {
          pipelines := RemoveOne(pipelines, out.pipeline.value);
        }
        outs := outs[o := out.(pipeline := None)];
        s := Stashed(o, out.pipeline);
      } else {
        s := Stashed(o, None);
      }
    }

    /** The stash loop: every hardware output gives up its pipeline, which is remembered. */
    method StashPipelines() returns (ss: seq<Stashed>)
      modifies this`outs, this`pipelines, this`events
      ensures (Reg(), ss) == StashAll(old(Reg()), old(drmOutputs))
    {
      ghost var r0 := Reg();
      var os := drmOutputs;
      ss := [];
      var i := 0;
      assert os[i..] == os;
      while i < |os|
        invariant 0 <= i <= |os|
        invariant StashAll(Reg(), os[i..]).0 == StashAll(r0, os).0
        invariant ss + StashAll(Reg(), os[i..]).1 == StashAll(r0, os).1
      {
        assert os[i..][0] == os[i] && os[i..][1..] == os[i + 1..];
        var s := StashOne(os[i]);
        ss := ss + [s];
        i := i + 1;
      }
      assert os[i..] == [] && ss + [] == ss;
    }

    /** The loop over m_leaseOutputs that keeps leased resources out of the search. */
    method ExcludeLeased(candidates: seq<Connector>) returns (pl: Pools)
      modifies this`pipelines
      ensures pl == ExcludeAll(old(Reg()), Pools(candidates, crtcs, old(pipelines)), leaseOutputs)
      ensures Reg() == old(Reg()).(pipelines := pl.pipelines)
    {
      ghost var r := Reg();
      var cs, ks := candidates, crtcs;
      var i := 0;
      assert leaseOutputs[i..] == leaseOutputs;
      while i < |leaseOutputs|
        invariant 0 <= i <= |leaseOutputs|
        invariant Reg() == r.(pipelines := pipelines)
        invariant ExcludeAll(r, Pools(cs, ks, pipelines), leaseOutputs[i..]) == ExcludeAll(r, Pools(candidates, crtcs, old(pipelines)), leaseOutputs)
      {
        var l := leaseOutputs[i];
        assert leaseOutputs[i..][0] == l && leaseOutputs[i..][1..] == leaseOutputs[i + 1..];
        if l in leaseOuts && leaseOuts[l].pipeline in pipes {
          var pipe := pipes[leaseOuts[l].pipeline];
          if leaseOuts[l].lease.Some? {
            cs := RemoveConnector(cs, pipe.connector);
            ks := RemoveOne(ks, pipe.crtc);
          } else {
            pipelines := RemoveOne(pipelines, leaseOuts[l].pipeline);
          }
        }
        i := i + 1;
      }
      pl := Pools(cs, ks, pipelines);
    }

    /**
     * The rollback after a failed search: each stashed output is handed
     * back its pipeline and each stashed pipeline its output, then the
     * pipelines of unleased lease outputs join the configuration.
     */
    method RevertPipelines(ss: seq<Stashed>) returns (config: seq<nat>)
      modifies this`pipes, this`outs
      ensures var (r1, ps) := Revert(old(Reg()), ss);
              Reg() == r1 && config == ps + FreeLeasePipes(r1, r1.leaseOutputs)
    {
      config := RestoreAll(ss);
      var extra := FreeLeaseConfig();
      config := config + extra;
    }

    /** The first loop of the rollback: every stash entry given back, in order. */
    method RestoreAll(ss: seq<Stashed>) returns (config: seq<nat>)
      modifies this`pipes, this`outs
      ensures Reg() == Revert(old(Reg()), ss).0 && config == Revert(old(Reg()), ss).1
    {
      ghost var r0 := Reg();
      config := [];
      var i := 0;
      assert ss[i..] == ss;
      while i < |ss|
        invariant 0 <= i <= |ss|
        invariant Revert(Reg(), ss[i..]).0 == Revert(r0, ss).0
        invariant config + Revert(Reg(), ss[i..]).1 == Revert(r0, ss).1
      {
        assert ss[i..][0] == ss[i] && ss[i..][1..] == ss[i + 1..];
        RestoreEntry(ss[i]);
        if ss[i].pipeline.Some? {
          config := config + [ss[i].pipeline.value];
        }
        i := i + 1;
      }
      assert ss[i..] == [] && config + [] == config;
    }

    /** The pipelines of the lease outputs not leased at the moment, in list order. */
    method FreeLeaseConfig() returns (extra: seq<nat>)
      ensures extra == FreeLeasePipes(Reg(), leaseOutputs)
    {
      extra := [];
      var j := 0;
      assert leaseOutputs[j..] == leaseOutputs;
      while j < |leaseOutputs|
        invariant 0 <= j <= |leaseOutputs|
        invariant extra + FreeLeasePipes(Reg(), leaseOutputs[j..]) == FreeLeasePipes(Reg(), leaseOutputs)
      {
        var l := leaseOutputs[j];
        assert leaseOutputs[j..][0] == l && leaseOutputs[j..][1..] == leaseOutputs[j + 1..];
        if l in leaseOuts && leaseOuts[l].pipeline in pipes && leaseOuts[l].lease.None? {
          extra := extra + [leaseOuts[l].pipeline];
        }
        j := j + 1;
      }
      assert leaseOutputs[j..] == [];
    }

    /** One stash entry given back: the output's pipeline and the pipeline's output. */
    method RestoreEntry(s: Stashed)
      modifies this`pipes, this`outs
      ensures Reg() == Restore(old(Reg()), s)
    {
      var o := s.output;
      if o in outs && outs[o].DrmOutput? {
        outs := outs[o := outs[o].(pipeline := s.pipeline)];
      }
      if s.pipeline.Some? {
        var p := s.pipeline.value;
        if p in pipes {
          pipes := pipes[p := pipes[p].(output := Some(o))];
        }
      }
    }

    /** The deletion of the stashed pipelines once a new combination is accepted. */
    method DeleteOldPipelines(ss: seq<Stashed>)
      modifies this`deleted
      ensures Reg() == DeleteStashed(old(Reg()), ss)
    {
      var i := 0;
      while i < |ss|
        invariant 0 <= i <= |ss|
        invariant forall k :: k in deleted <==> k in old(deleted) || exists j :: 0 <= j < i && ss[j].pipeline == Some(k)
      {
        if ss[i].pipeline.Some? {
          deleted := deleted + {ss[i].pipeline.value};
        }
        i := i + 1;
      }
      forall k ensures k in deleted <==> k in DeleteStashed(old(Reg()), ss).deleted {
        if exists s :: s in ss && s.pipeline == Some(k) {
          var s :| s in ss && s.pipeline == Some(k);
          var j :| 0 <= j < |ss| && ss[j] == s;
        }
      }
    }

    /** commitCombination's adoption of the winning pipelines, in order. */
    method AdoptCombination(combination: seq<Hyp>) returns (config: seq<nat>)
      modifies this`pipes, this`outs, this`nextId, this`events
      ensures (Reg(), config) == AdoptAll(old(Reg()), combination)
    {
      ghost var r0 := Reg();
      config := [];
      var rest := combination;
      while rest != []
        invariant AdoptAll(Reg(), rest).0 == AdoptAll(r0, combination).0
        invariant config + AdoptAll(Reg(), rest).1 == AdoptAll(r0, combination).1
        decreases |rest|
      {
        var p := AdoptOne(rest[0]);
        config := config + [p];
        rest := rest[1..];
      }
      assert config + [] == config;
    }

    /** commitCombination for one pipeline of the combination. */
    method AdoptOne(h: Hyp) returns (p: nat)
      modifies this`pipes, this`outs, this`nextId, this`events
      ensures (Reg(), p) == AdoptStep(old(Reg()), h)
    {
      var o := FindOutput(h.connector.id);
      p := nextId;
      pipes := pipes[p := Pipeline(h.connector.id, h.crtc, None, true, h.connector.nonDesktop)];
      nextId := p + 1;
      if o.Some? {
        if outs[o.value].DrmOutput? {
          outs := outs[o.value := outs[o.value].(pipeline := Some(p))];
        }
        pipes := pipes[p := pipes[p].(output := Some(o.value))];
      } else if !h.connector.nonDesktop {
        var n := nextId;
        outs := outs[n := DrmOutput(h.connector.id, Some(p), true, true, false)];
        pipes := pipes[p := pipes[p].(output := Some(n))];
        nextId := n + 1;
        events := events + [OutputEnabled(n)];
      }
    }

    /** One iteration of the routing loop. */
    method RouteOne(p: nat, cursorOk: nat -> bool) returns (forced: bool)
      modifies this`pipes, this`leaseOuts, this`leaseOutputs, this`nextId, this`outputs, this`drmOutputs, this`events
      ensures (Reg(), forced) == RouteStep(old(Reg()), p, cursorOk)
    {
      forced := false;
      if p !in pipes {
        return;
      }
      var pipe := pipes[p];
      if pipe.nonDesktop {
        var l := FindLeaseOutput(pipe.connector);
        if l.Some? {
          leaseOuts := leaseOuts[l.value := leaseOuts[l.value].(pipeline := p)];
        } else {
          var n := nextId;
          leaseOuts := leaseOuts[n := LeaseOutput(p, None)];
          leaseOutputs := leaseOutputs + [n];
          nextId := n + 1;
        }
        pipes := pipes[p := pipe.(active := false)];
        return;
      }
      if pipe.output.None? {
        return;
      }
      var o := pipe.output.value;
      if o in outputs {
        if o in outs && outs[o].DrmOutput? && outs[o].enabled {
          events := events + [TransformRestored(o)];
          if !outs[o].dpmsOn {
            pipes := pipes[p := pipe.(active := false)];
          }
        } else {
          pipes := pipes[p := pipe.(active := false)];
          events := events + [OutputDisabled(o)];
        }
      } else {
        forced := !cursorOk(o);
        outputs := outputs + [o];
        drmOutputs := drmOutputs + [o];
        events := events + [OutputAdded(o)];
      }
    }

    /** m_pipelines << config, then the routing loop. */
    method AddAndRoute(config: seq<nat>, cursorOk: nat -> bool) returns (forced: bool)
      modifies this`pipes, this`pipelines, this`leaseOuts, this`leaseOutputs, this`nextId, this`outputs, this`drmOutputs, this`events
      ensures (Reg(), forced) == RouteAll(old(Reg()).(pipelines := old(pipelines) + config), config, cursorOk)
    {
      pipelines := pipelines + config;
      forced := RoutePipelines(config, cursorOk);
    }

    /** The routing loop over the configuration, from its last pipeline to its first. */
    method RoutePipelines(ps: seq<nat>, cursorOk: nat -> bool) returns (forced: bool)
      modifies this`pipes, this`leaseOuts, this`leaseOutputs, this`nextId, this`outputs, this`drmOutputs, this`events
      ensures (Reg(), forced) == RouteAll(old(Reg()), ps, cursorOk)
    {
      ghost var goal := RouteAll(Reg(), ps, cursorOk);
      forced := false;
      var i := |ps|;
      assert ps[..i] == ps;
      while i > 0
        invariant 0 <= i <= |ps|
        invariant RouteAll(Reg(), ps[..i], cursorOk).0 == goal.0
        invariant (forced || RouteAll(Reg(), ps[..i], cursorOk).1) == goal.1
      {
        assert ps[..i][i - 1] == ps[i - 1] && ps[..i][..i - 1] == ps[..i - 1];
        var f := RouteOne(ps[i - 1], cursorOk);
        forced := forced || f;
        i := i - 1;
      }
    }

    /**
     * updateOutputs: wait for pending flips, then (unless
     * drmModeGetResources fails) check the lessees, reconcile the
     * connectors, search for a working combination and route its
     * pipelines; the lease device becomes DRM master again on success.
     * The GPU stays consistent when the combination is taken, and after a
     * rollback when Owned held once the pending flips were handled.
     */
    method UpdateOutputs(active: bool, script: seq<PollResult>, a: Answers) returns (ok: bool, why: WaitExit)
      requires Valid() && NoDup(crtcs) && ScriptWellFormed(outs, script)
      modifies this`pipes, this`pipelines, this`outs, this`outputs, this`drmOutputs
      modifies this`leaseOuts, this`leaseOutputs, this`nextId, this`deleted, this`events
      modifies this`connectors, notifier, platform, leaseDevice
      ensures var (r0, w) := WaitIdleSpec(old(Reg()), presentationClock, active, script);
              var u := UpdateSpec(r0, old(connectors), atomicModeSetting, crtcs, a);
              && why == w && ok == u.ok
              && Reg() == u.reg && connectors == u.conns
              && platform.softwareCursorForced == (old(platform.softwareCursorForced) || u.forced)
              && leaseDevice.drmMaster == (old(leaseDevice.drmMaster) || u.ok)
              && notifier.enabled
              && (!u.reverted || Owned(r0) ==> Valid())
    {
      why := WaitIdle(active, script);
      UpdateAcceptedOk(Reg(), connectors, atomicModeSetting, crtcs, a);
      if Owned(Reg()) {
        UpdateRevertedOk(Reg(), connectors, atomicModeSetting, crtcs, a);
      }
      ok := Reconfigure(a);
    }

    /** updateOutputs once waitIdle has returned. */
    method Reconfigure(a: Answers) returns (ok: bool)
      requires Valid()
      modifies this`pipes, this`pipelines, this`outs, this`outputs, this`drmOutputs
      modifies this`leaseOuts, this`leaseOutputs, this`nextId, this`deleted, this`events
      modifies this`connectors, platform, leaseDevice
      ensures var u := UpdateSpec(old(Reg()), old(connectors), atomicModeSetting, crtcs, a);
              && ok == u.ok && Reg() == u.reg && connectors == u.conns
              && platform.softwareCursorForced == (old(platform.softwareCursorForced) || u.forced)
              && leaseDevice.drmMaster == (old(leaseDevice.drmMaster) || u.ok)
    {
      if a.connectorIds.None? {
        return false;
      }
      ghost var r0 := Reg();
      ghost var c0 := connectors;
      ghost var r3, cs;
      var connected, forced;
      r3, cs, connected, forced := Rebuild(a);
      UpdateUnfold(r0, c0, atomicModeSetting, crtcs, a, r3, cs, connected, Reg(), forced);
      ok := true;
    }

    /** updateOutputs once drmModeGetResources has listed the connectors. */
    method Rebuild(a: Answers) returns (ghost r3: Registry, ghost cs: seq<Connector>, connected: seq<Connector>, forced: bool)
      requires Valid() && a.connectorIds.Some?
      modifies this`pipes, this`pipelines, this`outs, this`outputs, this`drmOutputs
      modifies this`leaseOuts, this`leaseOutputs, this`nextId, this`deleted, this`events
      modifies this`connectors, platform, leaseDevice
      ensures (r3, cs, connected) == Prepare(old(Reg()), old(connectors), a.connectorIds.value, a.lessees, a.probe)
      ensures var o := Negotiate(r3, cs, connected, atomicModeSetting, crtcs, a.test, a.cursorOk);
              && Reg() == o.reg && forced == o.forced && connectors == cs
              && platform.softwareCursorForced == (old(platform.softwareCursorForced) || forced)
              && leaseDevice.drmMaster
    {
      connected := PrepareUpdate(a.connectorIds.value, a.lessees, a.probe);
      r3 := Reg();
      cs := connectors;
      forced := FinishUpdate(connected, a.test, a.cursorOk);
    }

    /** The second half of updateOutputs followed by the cursor fallback and setDrmMaster. */
    method FinishUpdate(connected: seq<Connector>, test: seq<Hyp> -> bool, cursorOk: nat -> bool) returns (forced: bool)
      modifies this`pipes, this`pipelines, this`outs, this`outputs, this`drmOutputs
      modifies this`leaseOuts, this`leaseOutputs, this`nextId, this`deleted, this`events
      modifies platform, leaseDevice
      ensures var o := Negotiate(old(Reg()), connectors, connected, atomicModeSetting, crtcs, test, cursorOk);
              && Reg() == o.reg && forced == o.forced
              && platform.softwareCursorForced == (old(platform.softwareCursorForced) || forced)
              && leaseDevice.drmMaster
    {
      forced := NegotiateUpdate(connected, test, cursorOk);
      platform.softwareCursorForced := platform.softwareCursorForced || forced;
      leaseDevice.drmMaster := true;
    }

    /**
     * The first half of updateOutputs: the lessee check, the connector
     * scan and teardown, and the pass collecting the connected connectors.
     */
    method PrepareUpdate(ids: seq<nat>, lessees: seq<nat>, probe: nat -> ConnectorProbe) returns (connected: seq<Connector>)
      requires Valid()
      modifies this`pipes, this`pipelines, this`outs, this`outputs, this`drmOutputs
      modifies this`leaseOuts, this`leaseOutputs, this`nextId, this`deleted, this`events, this`connectors
      ensures Valid()
      ensures (Reg(), connectors, connected) == Prepare(old(Reg()), old(connectors), ids, lessees, probe)
    {
      CheckLessees(lessees);
      ReconcileConnectors(ids, probe);
      connected := CollectConnected();
    }

    /**
     * The second half of updateOutputs, from the stash of the current
     * pipelines to the routing loop; the result is whether some new
     * output's cursor could not be initialised.
     */
    method NegotiateUpdate(connected: seq<Connector>, test: seq<Hyp> -> bool, cursorOk: nat -> bool) returns (forced: bool)
      modifies this`pipes, this`pipelines, this`outs, this`outputs, this`drmOutputs
      modifies this`leaseOuts, this`leaseOutputs, this`nextId, this`deleted, this`events
      ensures var o := Negotiate(old(Reg()), connectors, connected, atomicModeSetting, crtcs, test, cursorOk);
              Reg() == o.reg && forced == o.forced
    {
      ghost var r3 := Reg();
      var ss := StashPipelines();
      ghost var r4 := Reg();
      assert (r4, ss) == StashAll(r3, r3.drmOutputs);
      var candidates := if atomicModeSetting then SortByHint(connected) else connected;
      var pl := ExcludeLeased(candidates);
      ghost var r5 := Reg();
      assert r5 == r4.(pipelines := pl.pipelines);
      assert pl == ExcludeAll(r4, Pools(candidates, crtcs, r4.pipelines), r4.leaseOutputs);
      var combination := FindWorkingCombination(atomicModeSetting, test, [], pl.conns, pl.crtcs);
      var reverted := combination == [] && pl.conns != [];
      var config := SettleCombination(ss, reverted, combination);
      ghost var r6 := Reg();
      assert (r6, config) == Settle(r5, ss, reverted, combination);
      forced := AddAndRoute(config, cursorOk);
      NegotiateUnfold(r3, connectors, connected, atomicModeSetting, crtcs, test, cursorOk, r4, ss, pl, r6, config, Reg(), forced);
    }

    /**
     * What becomes of the search result: the rollback when no combination
     * works although connectors are waiting, otherwise the deletion of the
     * old pipelines and the adoption of the combination.
     */
    method SettleCombination(ss: seq<Stashed>, reverted: bool, combination: seq<Hyp>) returns (config: seq<nat>)
      modifies this`pipes, this`outs, this`nextId, this`events, this`deleted
      ensures (Reg(), config) == Settle(old(Reg()), ss, reverted, combination)
    {
      if reverted {
        config := RevertPipelines(ss);
      } else {
        DeleteOldPipelines(ss);
        config := AdoptCombination(combination);
      }
    }
  }

  /**
   * initDrmResources as a function of the kernel's answers: atomic mode,
   * the planes, and the CRTCs that were kept.
   */
  function Discover(k: Kernel): (bool, seq<Plane>, seq<Crtc>)
  {
    var atomic := AtomicMode(k.atomicCapAccepted, k.planeIds, k.planeProbe);
    var cs := if k.crtcIds.Some? then AssignCrtcs(atomic, KernelPlanes(k), k.crtcIds.value, 0, k.crtcInitOk).crtcs else [];
    (atomic, KernelPlanes(k), cs)
  }

  /** Negotiate in terms of the results of its stages. */
  lemma NegotiateUnfold(r3: Registry, cs: seq<Connector>, connected: seq<Connector>, atomic: bool, crtcs: seq<Crtc>,
                        test: seq<Hyp> -> bool, cursorOk: nat -> bool, r4: Registry, ss: seq<Stashed>, pl: Pools,
                        r6: Registry, config: seq<nat>, r7: Registry, forced: bool)
    requires (r4, ss) == StashAll(r3, r3.drmOutputs)
    requires pl == ExcludeAll(r4, Pools(if atomic then SortByHint(connected) else connected, crtcs, r4.pipelines), r4.leaseOutputs)
    requires var combination := FindWorkingCombination(atomic, test, [], pl.conns, pl.crtcs);
             (r6, config) == Settle(r4.(pipelines := pl.pipelines), ss, combination == [] && pl.conns != [], combination)
    requires (r7, forced) == RouteAll(r6.(pipelines := r6.pipelines + config), config, cursorOk)
    ensures var o := Negotiate(r3, cs, connected, atomic, crtcs, test, cursorOk);
            o.reg == r7 && o.forced == forced
  {
  }

  /** UpdateSpec in terms of the results of its two halves. */
  lemma UpdateUnfold(r0: Registry, c0: seq<Connector>, atomic: bool, crtcs: seq<Crtc>, a: Answers,
                     r3: Registry, cs: seq<Connector>, connected: seq<Connector>, r7: Registry, forced: bool)
    requires a.connectorIds.Some?
    requires (r3, cs, connected) == Prepare(r0, c0, a.connectorIds.value, a.lessees, a.probe)
    requires var o := Negotiate(r3, cs, connected, atomic, crtcs, a.test, a.cursorOk);
             o.reg == r7 && o.forced == forced
    ensures var u := UpdateSpec(r0, c0, atomic, crtcs, a);
            u.ok && u.reg == r7 && u.conns == cs && u.forced == forced
  {
  }

  /** Discovery never keeps a CRTC twice: the kept CRTCs come in increasing index order. */
  lemma DiscoverDistinct(k: Kernel)
    ensures NoDup(Discover(k).2)
  {
    if k.crtcIds.Some? {
      var atomic := AtomicMode(k.atomicCapAccepted, k.planeIds, k.planeProbe);
      DiscoveryShape(atomic, KernelPlanes(k), k.crtcIds.value, 0, k.crtcInitOk);
    }
  }

  /** The planes initDrmResources keeps: none unless the atomic capability and the plane list were available. */
  function KernelPlanes(k: Kernel): seq<Plane>
  {
    if k.atomicCapAccepted && k.planeIds.Some? then InitPlanes(k.planeIds.value, k.planeProbe) else []
  }
}
