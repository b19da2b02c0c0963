// src/waylandoutputdevicev2.cpp: the kde_output_device_v2 global that
// mirrors a platform output. Enums cross over by static_cast (their wire
// value is the output enum's ordinal); capabilities are translated flag by
// flag; modes are copied one by one.
module WaylandOutputDevices {
  import opened Common
  import opened OutputTypes
  import opened Outputs

  /** OutputDeviceV2Interface::Capability: the device protocol has no DPMS capability. */
  datatype DeviceCapability = DeviceOverscan | DeviceVrr | DeviceRgbRange

  /** OutputDeviceModeV2Interface::ModeFlag. */
  datatype DeviceModeFlag = DeviceCurrent | DevicePreferred

  /** An OutputDeviceModeV2Interface. */
  datatype DeviceMode = DeviceMode(size: Size, refreshRate: int, flags: set<DeviceModeFlag>)

  /** The static_casts: the device enum value is the output enum's ordinal. */
  function DeviceTransformValue(t: Transform): nat { TransformOrdinal(t) }
  function DeviceSubPixelValue(s: SubPixel): nat { SubPixelOrdinal(s) }
  function DeviceVrrPolicyValue(p: VrrPolicy): nat { VrrPolicyOrdinal(p) }
  function DeviceRgbRangeValue(r: RgbRange): nat { RgbRangeOrdinal(r) }

  /** Each cast is undone by the matching ordinal decoding, so none of them merges two values. */
  lemma CastsReversible(t: Transform, s: SubPixel, p: VrrPolicy, r: RgbRange)
    ensures DeviceTransformValue(t) < 8 && TransformFromOrdinal(DeviceTransformValue(t)) == t
    ensures DeviceSubPixelValue(s) < 6 && SubPixelFromOrdinal(DeviceSubPixelValue(s)) == s
    ensures DeviceVrrPolicyValue(p) <= 2 && VrrPolicyFromOrdinal(DeviceVrrPolicyValue(p)) == p
    ensures DeviceRgbRangeValue(r) <= 2 && RgbRangeFromOrdinal(DeviceRgbRangeValue(r)) == r
  {
    TransformOrdinalRoundTrip(t, 0);
    SubPixelOrdinalRoundTrip(s, 0);
    VrrPolicyOrdinalRoundTrip(p, 0);
    RgbRangeOrdinalRoundTrip(r, 0);
  }

  /** kwinCapabilitiesToOutputDeviceCapabilities. */
  function DeviceCapabilities(caps: set<Capability>): (r: set<DeviceCapability>)
    ensures DeviceOverscan in r <==> OverscanCapability in caps
    ensures DeviceVrr in r <==> VrrCapability in caps
    ensures DeviceRgbRange in r <==> RgbRangeCapability in caps
  {
    (if OverscanCapability in caps then {DeviceOverscan} else {})
    + (if VrrCapability in caps then {DeviceVrr} else {})
    + (if RgbRangeCapability in caps then {DeviceRgbRange} else {})
  }

  /** Whether DPMS is supported makes no difference to the advertised capabilities. */
  lemma DeviceCapabilitiesDropDpms(caps: set<Capability>)
    ensures DeviceCapabilities(caps + {DpmsCapability}) == DeviceCapabilities(caps - {DpmsCapability})
  {
    var a, b := DeviceCapabilities(caps + {DpmsCapability}), DeviceCapabilities(caps - {DpmsCapability});
    assert forall c :: c in a <==> c in b by {
      forall c ensures c in a <==> c in b {
        match c
        case DeviceOverscan =>
        case DeviceVrr =>
        case DeviceRgbRange =>
      }
    }
  }

  /** The device mode built for one output mode. */
  function DeviceModeOf(m: Mode): (d: DeviceMode)
    ensures d.size == m.size && d.refreshRate == m.refreshRate
    ensures DeviceCurrent in d.flags <==> CurrentMode in m.flags
    ensures DevicePreferred in d.flags <==> PreferredMode in m.flags
  {
    DeviceMode(m.size, m.refreshRate,
               (if CurrentMode in m.flags then {DeviceCurrent} else {})
               + (if PreferredMode in m.flags then {DevicePreferred} else {}))
  }

  /** The two flags are carried over independently: each depends only on its own output flag. */
  lemma DeviceModeFlagsIndependent(m: Mode, f: ModeFlag)
    ensures var d, d' := DeviceModeOf(m), DeviceModeOf(m.(flags := m.flags + {f}));
      (f == CurrentMode ==> (DevicePreferred in d.flags <==> DevicePreferred in d'.flags) && DeviceCurrent in d'.flags)
      && (f == PreferredMode ==> (DeviceCurrent in d.flags <==> DeviceCurrent in d'.flags) && DevicePreferred in d'.flags)
  {
  }

  /** WaylandOutputDevice: the kde_output_device_v2 state advertised for one platform output. */
  class WaylandOutputDevice {
    const platformOutput: Output
    var manufacturer: string
    var edid: seq<bv8>
    var uuid: Uuid
    var model: string
    var physicalSize: Size
    var globalPosition: Point
    var scale: real
    var transform: nat
    var eisaId: string
    var serialNumber: string
    var subPixel: nat
    var overscan: nat
    var capabilities: set<DeviceCapability>
    var vrrPolicy: nat
    var rgbRange: nat
    var name: string
    var enabled: bool
    var currentModeSize: Size
    var currentRefreshRate: int
    var modes: seq<DeviceMode>

    /** The device modes are the output's modes, translated one by one in the same order. */
    predicate ModesMirrored()
      reads this, platformOutput
    {
      |modes| == |platformOutput.modes| && forall i :: 0 <= i < |modes| ==> modes[i] == DeviceModeOf(platformOutput.modes[i])
    }

    /**
     * The constructor copies the output's identification and state. The
     * enabled flag and the current mode are left at the interface's
     * defaults until their first change.
     */
    constructor(output: Output)
      ensures platformOutput == output && ModesMirrored()
      ensures manufacturer == output.manufacturer && edid == output.edid && uuid == output.uuid
      ensures model == output.model && physicalSize == output.OrientedPhysicalSize() && globalPosition == output.position
      ensures scale == output.scale && transform == DeviceTransformValue(output.transform)
      ensures eisaId == output.eisaId && serialNumber == output.serialNumber
      ensures subPixel == DeviceSubPixelValue(output.subPixel) && overscan == output.overscan
      ensures capabilities == DeviceCapabilities(output.capabilities)
      ensures vrrPolicy == DeviceVrrPolicyValue(output.renderLoop.vrrPolicy) && rgbRange == DeviceRgbRangeValue(output.rgbRange)
      ensures name == output.name
    {
      platformOutput := output;
      manufacturer := output.manufacturer;
      edid := output.edid;
      uuid := output.uuid;
      model := output.model;
      physicalSize := output.OrientedPhysicalSize();
      globalPosition := output.position;
      scale := output.scale;
      transform := DeviceTransformValue(output.transform);
      eisaId := output.eisaId;
      serialNumber := output.serialNumber;
      subPixel := DeviceSubPixelValue(output.subPixel);
      overscan := output.overscan;
      capabilities := DeviceCapabilities(output.capabilities);
      vrrPolicy := DeviceVrrPolicyValue(output.renderLoop.vrrPolicy);
      rgbRange := DeviceRgbRangeValue(output.rgbRange);
      name := output.name;
      new;
      UpdateModes();
    }

    /** updateModes: one device mode per output mode, in the same order. */
    method UpdateModes()
      modifies this`modes
      ensures ModesMirrored()
    {
      var deviceModes: seq<DeviceMode> := [];
      var all := platformOutput.modes;
      for i := 0 to |all|
        invariant |deviceModes| == i
        invariant forall k :: 0 <= k < i ==> deviceModes[k] == DeviceModeOf(all[k])
      {
        var m := all[i];
        var flags: set<DeviceModeFlag> := {};
        if CurrentMode in m.flags {
          flags := flags + {DeviceCurrent};
        }
        if PreferredMode in m.flags {
          flags := flags + {DevicePreferred};
        }
        deviceModes := deviceModes + [DeviceMode(m.size, m.refreshRate, flags)];
      }
      modes := deviceModes;
    }

    method HandleModesChanged()
      modifies this`modes
      ensures ModesMirrored()
    {
      UpdateModes();
    }

    method HandleGeometryChanged()
      modifies this`globalPosition
      ensures globalPosition == platformOutput.position
    {
      globalPosition := platformOutput.position;
    }

    method HandleScaleChanged()
      modifies this`scale
      ensures scale == platformOutput.scale
    {
      scale := platformOutput.scale;
    }

    method HandleEnabledChanged()
      modifies this`enabled
      ensures enabled == platformOutput.isEnabled
    {
      enabled := platformOutput.isEnabled;
    }

    method HandleTransformChanged()
      modifies this`transform
      ensures transform == DeviceTransformValue(platformOutput.transform)
    {
      transform := DeviceTransformValue(platformOutput.transform);
    }

    method HandleCurrentModeChanged()
      modifies this`currentModeSize, this`currentRefreshRate
      ensures currentModeSize == platformOutput.modeSize && currentRefreshRate == platformOutput.refreshRate
    {
      currentModeSize, currentRefreshRate := platformOutput.modeSize, platformOutput.refreshRate;
    }

    method HandleCapabilitiesChanged()
      modifies this`capabilities
      ensures capabilities == DeviceCapabilities(platformOutput.capabilities)
    {
      capabilities := DeviceCapabilities(platformOutput.capabilities);
    }

    method HandleOverscanChanged()
      modifies this`overscan
      ensures overscan == platformOutput.overscan
    {
      overscan := platformOutput.overscan;
    }

    method HandleVrrPolicyChanged()
      modifies this`vrrPolicy
      ensures vrrPolicy == DeviceVrrPolicyValue(platformOutput.renderLoop.vrrPolicy)
    {
      vrrPolicy := DeviceVrrPolicyValue(platformOutput.renderLoop.vrrPolicy);
    }

    method HandleRgbRangeChanged()
      modifies this`rgbRange
      ensures rgbRange == DeviceRgbRangeValue(platformOutput.rgbRange)
    {
      rgbRange := DeviceRgbRangeValue(platformOutput.rgbRange);
    }
  }
}
