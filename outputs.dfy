// The Output object of src/abstract_output.cpp (class AbstractOutput) and
// src/output.cpp (class Output). The two files hold the same logic under two
// class names and differ only in how applyChanges sets the transform, so
// one class models both: its `route` says which file it follows. Qt signals
// are appended to the `events` log in emission order.
module Outputs {
  import opened Common
  import opened OutputTypes

  /** The signals an output emits. */
  datatype OutputSignal =
    | AboutToChange | Changed | EnabledChanged | GeometryChanged | ScaleChanged | CapabilitiesChanged
    | ModesChanged | CurrentModeChanged | TransformChanged | DpmsModeChanged | OverscanChanged
    | VrrPolicyChanged | RgbRangeChanged

  /**
   * How applyChanges sets the transform: through the virtual updateTransform
   * hook, which does nothing in the base class (src/abstract_output.cpp), or
   * through setTransformInternal (src/output.cpp).
   */
  datatype TransformRoute = UpdateTransformHook | ThroughSetTransformInternal

  /** The change set applyChanges reads for this output. */
  datatype OutputChangeSet = OutputChangeSet(
    enabled: bool, pos: Point, scale: real, modeSize: Size, refreshRate: int,
    transform: Transform, overscan: nat, rgbRange: RgbRange, vrrPolicy: VrrPolicy)

  /** The part of an output's state that applyChanges reads and writes. */
  datatype Settings = Settings(
    enabled: bool, transform: Transform, position: Point, scale: real,
    vrrPolicy: VrrPolicy, rgbRange: RgbRange, capabilities: set<Capability>)

  /** The signals of a setter's change guard: all of them when the value changes, none otherwise. */
  function Notify(changed: bool, sigs: seq<OutputSignal>): seq<OutputSignal>
  {
    if changed then sigs else []
  }

  /** applyChanges on values: the settings after setEnabled, the transform, moveTo, setScale, setVrrPolicy and setRgbRangeInternal. */
  function ApplySettings(s: Settings, props: OutputChangeSet, route: TransformRoute): Settings
  {
    Settings(
      props.enabled,
      if route == ThroughSetTransformInternal then props.transform else s.transform,
      props.pos, props.scale,
      if s.vrrPolicy != props.vrrPolicy && VrrCapability in s.capabilities then props.vrrPolicy else s.vrrPolicy,
      props.rgbRange, s.capabilities)
  }

  /** The transform step's signals: setTransformInternal's in src/output.cpp, none through the base-class hook. */
  function TransformSignals(s: Settings, props: OutputChangeSet, route: TransformRoute): seq<OutputSignal>
  {
    if route == ThroughSetTransformInternal
    then Notify(s.transform != props.transform, [TransformChanged, CurrentModeChanged, GeometryChanged])
    else []
  }

  /** The signals of setEnabled, the transform step and moveTo. */
  function PlacementSignals(s: Settings, props: OutputChangeSet, route: TransformRoute): seq<OutputSignal>
  {
    Notify(s.enabled != props.enabled, [EnabledChanged])
    + TransformSignals(s, props, route)
    + Notify(s.position != props.pos, [GeometryChanged])
  }

  /** The signals of setScale, setVrrPolicy and setRgbRangeInternal. */
  function RenderingSignals(s: Settings, props: OutputChangeSet): seq<OutputSignal>
  {
    Notify(s.scale != props.scale, [ScaleChanged, GeometryChanged])
    + Notify(s.vrrPolicy != props.vrrPolicy && VrrCapability in s.capabilities, [VrrPolicyChanged])
    + Notify(s.rgbRange != props.rgbRange, [RgbRangeChanged])
  }

  /** The log of applyChanges: aboutToChange, the first three steps' signals, the last three's, changed. */
  lemma SignalsCompose(e0: seq<OutputSignal>, e1: seq<OutputSignal>, e2: seq<OutputSignal>, p: seq<OutputSignal>, q: seq<OutputSignal>)
    requires e1 == e0 + [AboutToChange] + p
    requires e2 == e1 + q + [Changed]
    ensures e2 == e0 + ([AboutToChange] + p + q + [Changed])
  {
    SeqAssoc(e0 + [AboutToChange], p, q);
    SeqAssoc(e0, [AboutToChange] + p + q, [Changed]);
  }

  lemma RenderingSignalsFrame(s1: Settings, s2: Settings, props: OutputChangeSet)
    requires s1.scale == s2.scale && s1.vrrPolicy == s2.vrrPolicy && s1.rgbRange == s2.rgbRange
    requires s1.capabilities == s2.capabilities
    ensures RenderingSignals(s1, props) == RenderingSignals(s2, props)
  {
  }

  /**
   * applyChanges' signals: aboutToChange, then those of each step's change
   * guard in order, then changed.
   */
  function ApplySignals(s: Settings, props: OutputChangeSet, route: TransformRoute): seq<OutputSignal>
  {
    [AboutToChange] + PlacementSignals(s, props, route) + RenderingSignals(s, props) + [Changed]
  }

  /**
   * What applyChanges achieves: every requested value is taken, except the
   * transform through the base-class hook and the VRR policy on an output
   * without the Vrr capability; the signals are bracketed by aboutToChange
   * and changed, and nothing else is emitted exactly when nothing changed.
   */
  lemma ApplyOutcome(s: Settings, props: OutputChangeSet, route: TransformRoute)
    ensures var s' := ApplySettings(s, props, route);
      && s'.enabled == props.enabled && s'.position == props.pos && s'.scale == props.scale
      && s'.rgbRange == props.rgbRange && s'.capabilities == s.capabilities
      && s'.transform == (if route == ThroughSetTransformInternal then props.transform else s.transform)
      && s'.vrrPolicy == (if VrrCapability in s.capabilities then props.vrrPolicy else s.vrrPolicy)
    ensures var sig := ApplySignals(s, props, route);
      |sig| >= 2 && sig[0] == AboutToChange && sig[|sig| - 1] == Changed
    ensures |ApplySignals(s, props, route)| == 2 <==> ApplySettings(s, props, route) == s
  {
  }

  /** Applying the same change set a second time changes nothing and emits only aboutToChange and changed. */
  lemma ApplyTwice(s: Settings, props: OutputChangeSet, route: TransformRoute)
    ensures ApplySettings(ApplySettings(s, props, route), props, route) == ApplySettings(s, props, route)
    ensures ApplySignals(ApplySettings(s, props, route), props, route) == [AboutToChange, Changed]
  {
    var s1 := ApplySettings(s, props, route);
    ApplyOutcome(s1, props, route);
  }

  /** qRound: the nearest integer, halves rounded up. */
  function QRound(x: real): (n: int)
    ensures n as real - 0.5 <= x < n as real + 0.5
  {
    (x + 0.5).Floor
  }

  /** The first mode flagged Current, if any (the loop of initialize). */
  function FirstCurrent(modes: seq<Mode>): (r: Option<Mode>)
    ensures r.None? <==> forall m :: m in modes ==> CurrentMode !in m.flags
    ensures r.Some? ==> exists i :: (0 <= i < |modes| && modes[i] == r.value && CurrentMode in modes[i].flags
      && forall j :: 0 <= j < i ==> CurrentMode !in modes[j].flags)
  {
    if modes == [] then None
    else if CurrentMode in modes[0].flags then Some(modes[0])
    else
      var r := FirstCurrent(modes[1..]);
      assert forall m :: m in modes[1..] ==> m in modes;
      if r.Some? then
        var i :| (0 <= i < |modes[1..]| && modes[1..][i] == r.value && CurrentMode in modes[1..][i].flags
          && forall j :: 0 <= j < i ==> CurrentMode !in modes[1..][j].flags);
        assert modes[i + 1] == r.value;
        r
      else r
  }

  /** The display name substituted for an empty manufacturer. */
  const UNKNOWN_MANUFACTURER: string := "unknown"

  /** The render loop of an output; it holds the VRR policy. */
  class RenderLoop {
    var vrrPolicy: VrrPolicy

    constructor(policy: VrrPolicy)
      ensures vrrPolicy == policy
    {
      vrrPolicy := policy;
    }
  }

  class Output {
    const route: TransformRoute
    const renderLoop: RenderLoop
    var directScanoutCount: int
    var name: string
    var eisaId: string
    var manufacturer: string
    var model: string
    var serialNumber: string
    var uuid: Uuid
    var modeSize: Size
    var physicalSize: Size
    var position: Point
    var scale: real
    var capabilities: set<Capability>
    var transform: Transform
    var edid: seq<bv8>
    var modes: seq<Mode>
    var dpmsMode: DpmsMode
    var subPixel: SubPixel
    var refreshRate: int
    var isEnabled: bool
    var internal: bool
    var isPlaceholder: bool
    var overscan: nat
    var rgbRange: RgbRange
    var events: seq<OutputSignal>

    /**
     * A fresh output: the field initialisers of the class declaration. The
     * sizes are Qt's invalid QSize (-1, -1) and the uuid is the null uuid.
     */
    constructor(route: TransformRoute, renderLoop: RenderLoop)
      ensures this.route == route && this.renderLoop == renderLoop
      ensures directScanoutCount == 0 && !DirectScanoutInhibited()
      ensures name == "" && eisaId == "" && manufacturer == "" && model == "" && serialNumber == ""
      ensures uuid == NullUuid && modeSize == Size(-1, -1) && physicalSize == Size(-1, -1)
      ensures position == Point(0, 0) && scale == 1.0 && capabilities == {} && transform == Normal
      ensures edid == [] && modes == [] && dpmsMode == On && subPixel == Unknown && refreshRate == -1
      ensures isEnabled && !internal && !isPlaceholder && overscan == 0 && rgbRange == Automatic
      ensures events == []
    {
      this.route := route;
      this.renderLoop := renderLoop;
      directScanoutCount := 0;
      name, eisaId, manufacturer, model, serialNumber := "", "", "", "", "";
      uuid, modeSize, physicalSize := NullUuid, Size(-1, -1), Size(-1, -1);
      position, scale, capabilities, transform := Point(0, 0), 1.0, {}, Normal;
      edid, modes, dpmsMode, subPixel, refreshRate := [], [], On, Unknown, -1;
      isEnabled, internal, isPlaceholder, overscan, rgbRange := true, false, false, 0, Automatic;
      events := [];
    }

    function CurrentSettings(): Settings
      reads this, renderLoop
    {
      Settings(isEnabled, transform, position, scale, renderLoop.vrrPolicy, rgbRange, capabilities)
    }

    /** directScanoutInhibited: the counter is non-zero. */
    predicate DirectScanoutInhibited()
      reads this
    {
      directScanoutCount != 0
    }

    method InhibitDirectScanout()
      modifies this`directScanoutCount
      ensures directScanoutCount == old(directScanoutCount) + 1
      ensures old(directScanoutCount) >= 0 ==> DirectScanoutInhibited()
    {
      directScanoutCount := directScanoutCount + 1;
    }

    method UninhibitDirectScanout()
      modifies this`directScanoutCount
      ensures directScanoutCount == old(directScanoutCount) - 1
      ensures old(directScanoutCount) == 1 ==> !DirectScanoutInhibited()
    {
      directScanoutCount := directScanoutCount - 1;
    }

    /** pixelSize: the mode size oriented by the transform. */
    function PixelSize(): (s: Size)
      reads this
      ensures OrientateSize(transform, s) == modeSize
    {
      OrientateInvolution(transform, modeSize);
      OrientateSize(transform, modeSize)
    }

    /**
     * geometry: a rectangle at the position whose size is the pixel size
     * divided by the scale, each side rounded to the nearest integer as
     * QSize's division does. That division asserts a non-zero divisor.
     */
    function Geometry(): (g: Rect)
      reads this
      requires scale != 0.0
      ensures g.topLeft == position
      ensures g.size.width as real - 0.5 <= PixelSize().width as real / scale < g.size.width as real + 0.5
      ensures g.size.height as real - 0.5 <= PixelSize().height as real / scale < g.size.height as real + 0.5
    {
      var p := PixelSize();
      Rect(position, Size(QRound(p.width as real / scale), QRound(p.height as real / scale)))
    }

    /** At scale 1 the geometry is as large as the pixel size. */
    lemma GeometryUnscaled()
      requires scale == 1.0
      ensures Geometry().size == PixelSize()
    {
      var p := PixelSize();
      assert p.width as real / scale == p.width as real;
      assert p.height as real / scale == p.height as real;
    }

    /** physicalSize: the physical size oriented by the transform. */
    function OrientedPhysicalSize(): (s: Size)
      reads this
      ensures OrientateSize(transform, s) == physicalSize
    {
      OrientateInvolution(transform, physicalSize);
      OrientateSize(transform, physicalSize)
    }

    /** description: the manufacturer and the model separated by one space. */
    function Description(): (d: string)
      reads this
      ensures |d| == |manufacturer| + 1 + |model|
      ensures d[..|manufacturer|] == manufacturer && d[|manufacturer|] == ' ' && d[|manufacturer| + 1..] == model
    {
      manufacturer + " " + model
    }

    method SetCapabilityInternal(c: Capability, on: bool)
      modifies this`capabilities, this`events
      ensures (c in capabilities) == on
      ensures capabilities - {c} == old(capabilities) - {c}
      ensures events == old(events) + Notify((c in old(capabilities)) != on, [CapabilitiesChanged])
    {
      if (c in capabilities) != on {
        capabilities := WithCapability(capabilities, c, on);
        events := events + [CapabilitiesChanged];
      }
    }

    method SetScale(s: real)
      modifies this`scale, this`events
      ensures scale == s
      ensures events == old(events) + Notify(old(scale) != s, [ScaleChanged, GeometryChanged])
    {
      if scale != s {
        scale := s;
        events := events + [ScaleChanged, GeometryChanged];
      }
    }

    method MoveTo(pos: Point)
      modifies this`position, this`events
      ensures position == pos
      ensures events == old(events) + Notify(old(position) != pos, [GeometryChanged])
    {
      if position != pos {
        position := pos;
        events := events + [GeometryChanged];
      }
    }

    /** setModes: the list is compared mode by mode on id, flags, size and refresh rate. */
    method SetModes(ms: seq<Mode>)
      modifies this`modes, this`events
      ensures modes == ms
      ensures events == old(events) + Notify(old(modes) != ms, [ModesChanged])
    {
      if modes != ms {
        modes := ms;
        events := events + [ModesChanged];
      }
    }

    /** setSubPixelInternal: stores the value, with no guard and no signal. */
    method SetSubPixelInternal(s: SubPixel)
      modifies this`subPixel
      ensures subPixel == s
    {
      subPixel := s;
    }

    /** setEnabled: the updateEnablement hook does nothing in this class. */
    method SetEnabled(enable: bool)
      modifies this`isEnabled, this`events
      ensures isEnabled == enable
      ensures events == old(events) + Notify(old(isEnabled) != enable, [EnabledChanged])
    {
      if isEnabled != enable {
        isEnabled := enable;
        events := events + [EnabledChanged];
      }
    }

    /** setCurrentModeInternal: currentModeChanged on any change, geometryChanged only when the size changed. */
    method SetCurrentModeInternal(size: Size, rate: int)
      modifies this`modeSize, this`refreshRate, this`events
      ensures modeSize == size && refreshRate == rate
      ensures events == old(events) + Notify(old(modeSize) != size || old(refreshRate) != rate,
                                             [CurrentModeChanged] + Notify(old(modeSize) != size, [GeometryChanged]))
    {
      var sizeChanged := modeSize != size;
      if sizeChanged || refreshRate != rate {
        modeSize := size;
        refreshRate := rate;
        events := events + [CurrentModeChanged];
        if sizeChanged {
          events := events + [GeometryChanged];
        }
      }
    }

    method SetTransformInternal(t: Transform)
      modifies this`transform, this`events
      ensures transform == t
      ensures events == old(events) + Notify(old(transform) != t, [TransformChanged, CurrentModeChanged, GeometryChanged])
    {
      if transform != t {
        transform := t;
        events := events + [TransformChanged, CurrentModeChanged, GeometryChanged];
      }
    }

    /** setDpmsMode: the base class ignores the request; backends that drive DPMS override it. */
    method SetDpmsMode(m: DpmsMode)
      ensures unchanged(this)
    {
    }

    method SetDpmsModeInternal(m: DpmsMode)
      modifies this`dpmsMode, this`events
      ensures dpmsMode == m
      ensures events == old(events) + Notify(old(dpmsMode) != m, [DpmsModeChanged])
    {
      if dpmsMode != m {
        dpmsMode := m;
        events := events + [DpmsModeChanged];
      }
    }

    method SetOverscanInternal(o: nat)
      requires o < 0x1_0000_0000
      modifies this`overscan, this`events
      ensures overscan == o
      ensures events == old(events) + Notify(old(overscan) != o, [OverscanChanged])
    {
      if overscan != o {
        overscan := o;
        events := events + [OverscanChanged];
      }
    }

    /** setVrrPolicy: takes effect only when the policy differs and the output is VRR capable. */
    method SetVrrPolicy(p: VrrPolicy)
      modifies renderLoop`vrrPolicy, this`events
      ensures renderLoop.vrrPolicy == if VrrCapability in capabilities then p else old(renderLoop.vrrPolicy)
      ensures events == old(events) + Notify(old(renderLoop.vrrPolicy) != p && VrrCapability in capabilities, [VrrPolicyChanged])
    {
      if renderLoop.vrrPolicy != p && VrrCapability in capabilities {
        renderLoop.vrrPolicy := p;
        events := events + [VrrPolicyChanged];
      }
    }

    method SetPlaceholder(b: bool)
      modifies this`isPlaceholder
      ensures isPlaceholder == b
    {
      isPlaceholder := b;
    }

    method SetRgbRangeInternal(r: RgbRange)
      modifies this`rgbRange, this`events
      ensures rgbRange == r
      ensures events == old(events) + Notify(old(rgbRange) != r, [RgbRangeChanged])
    {
      if rgbRange != r {
        rgbRange := r;
        events := events + [RgbRangeChanged];
      }
    }

    method SetPhysicalSizeInternal(s: Size)
      modifies this`physicalSize
      ensures physicalSize == s
    {
      physicalSize := s;
    }

    /** applyChanges, proved against ApplySettings and ApplySignals. */
    method ApplyChanges(props: OutputChangeSet)
      modifies this`isEnabled, this`transform, this`position, this`scale, this`rgbRange, this`events, renderLoop`vrrPolicy
      ensures CurrentSettings() == ApplySettings(old(CurrentSettings()), props, route)
      ensures events == old(events) + ApplySignals(old(CurrentSettings()), props, route)
    {
      ghost var s := CurrentSettings();
      ghost var e0 := events;
      events := events + [AboutToChange];
      ApplyPlacement(props);
      ghost var e1 := events;
      ghost var sMid := CurrentSettings();
      ApplyRendering(props);
      events := events + [Changed];
      RenderingSignalsFrame(sMid, s, props);
      SignalsCompose(e0, e1, events, PlacementSignals(s, props, route), RenderingSignals(s, props));
    }

    /** The first three steps of applyChanges: setEnabled, the transform, moveTo. */
    method ApplyPlacement(props: OutputChangeSet)
      modifies this`isEnabled, this`transform, this`position, this`events
      ensures isEnabled == props.enabled && position == props.pos
      ensures transform == if route == ThroughSetTransformInternal then props.transform else old(transform)
      ensures events == old(events) + PlacementSignals(old(CurrentSettings()), props, route)
    {
      ghost var s := CurrentSettings();
      ghost var e0 := events;
      SetEnabled(props.enabled);
      ghost var e1 := events;
      if route == ThroughSetTransformInternal {
        SetTransformInternal(props.transform);
      }
      ghost var e2 := events;
      MoveTo(props.pos);
      assert e2 == e1 + TransformSignals(s, props, route);
      SeqAssoc(e0, Notify(s.enabled != props.enabled, [EnabledChanged]), TransformSignals(s, props, route));
      SeqAssoc(e0, Notify(s.enabled != props.enabled, [EnabledChanged]) + TransformSignals(s, props, route),
                  Notify(s.position != props.pos, [GeometryChanged]));
    }

    /** The last three steps of applyChanges: setScale, setVrrPolicy, setRgbRangeInternal. */
    method ApplyRendering(props: OutputChangeSet)
      modifies this`scale, this`rgbRange, this`events, renderLoop`vrrPolicy
      ensures scale == props.scale && rgbRange == props.rgbRange
      ensures renderLoop.vrrPolicy == if VrrCapability in capabilities then props.vrrPolicy else old(renderLoop.vrrPolicy)
      ensures events == old(events) + RenderingSignals(old(CurrentSettings()), props)
    {
      ghost var s := CurrentSettings();
      ghost var e0 := events;
      SetScale(props.scale);
      SetVrrPolicy(props.vrrPolicy);
      SetRgbRangeInternal(props.rgbRange);
      SeqAssoc(e0, Notify(s.scale != props.scale, [ScaleChanged, GeometryChanged]),
                  Notify(s.vrrPolicy != props.vrrPolicy && VrrCapability in s.capabilities, [VrrPolicyChanged]));
      SeqAssoc(e0, Notify(s.scale != props.scale, [ScaleChanged, GeometryChanged])
                      + Notify(s.vrrPolicy != props.vrrPolicy && VrrCapability in s.capabilities, [VrrPolicyChanged]),
                  Notify(s.rgbRange != props.rgbRange, [RgbRangeChanged]));
    }

    /**
     * initialize: stores the identification strings ("unknown" for an empty
     * manufacturer), the physical size, the EDID and the modes, derives the
     * uuid from the current name, and takes the mode size and refresh rate
     * from the first mode flagged Current.
     */
    method Initialize(model': string, manufacturer': string, eisaId': string, serialNumber': string,
                      physicalSize': Size, modes': seq<Mode>, edid': seq<bv8>)
      modifies this`serialNumber, this`eisaId, this`manufacturer, this`model, this`physicalSize
      modifies this`edid, this`modes, this`uuid, this`modeSize, this`refreshRate
      ensures serialNumber == serialNumber' && eisaId == eisaId' && model == model'
      ensures manufacturer == if manufacturer' == "" then UNKNOWN_MANUFACTURER else manufacturer'
      ensures physicalSize == physicalSize' && edid == edid' && modes == modes'
      ensures uuid == OutputUuid(eisaId', model', serialNumber', name)
      ensures FirstCurrent(modes').Some? ==> modeSize == FirstCurrent(modes').value.size && refreshRate == FirstCurrent(modes').value.refreshRate
      ensures FirstCurrent(modes').None? ==> modeSize == old(modeSize) && refreshRate == old(refreshRate)
    {
      serialNumber := serialNumber';
      eisaId := eisaId';
      manufacturer := if manufacturer' == "" then UNKNOWN_MANUFACTURER else manufacturer';
      model := model';
      physicalSize := physicalSize';
      edid := edid';
      modes := modes';
      uuid := OutputUuid(eisaId, model, serialNumber, name);
      var rest := modes';
      while rest != []
        invariant FirstCurrent(rest) == FirstCurrent(modes')
        invariant modeSize == old(modeSize) && refreshRate == old(refreshRate)
        decreases |rest|
      {
        if CurrentMode in rest[0].flags {
          modeSize := rest[0].size;
          refreshRate := rest[0].refreshRate;
          return;
        }
        rest := rest[1..];
      }
    }
  }
}
