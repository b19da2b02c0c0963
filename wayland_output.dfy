// src/waylandoutput.cpp: the wl_output and xdg_output globals that mirror a
// platform output, and the switch-based translations between the output's
// enums and the protocol's.
module WaylandOutputs {
  import opened Common
  import opened OutputTypes
  import opened Outputs

  /** wl_output.transform of the Wayland core protocol. */
  datatype WlTransform = WlNormal | Wl90 | Wl180 | Wl270 | WlFlipped | WlFlipped90 | WlFlipped180 | WlFlipped270

  /** The wire value of a wl_output.transform entry. */
  function WlTransformValue(w: WlTransform): nat
  {
    match w
    case WlNormal => 0
    case Wl90 => 1
    case Wl180 => 2
    case Wl270 => 3
    case WlFlipped => 4
    case WlFlipped90 => 5
    case WlFlipped180 => 6
    case WlFlipped270 => 7
  }

  /** wl_output.subpixel of the Wayland core protocol. */
  datatype WlSubPixel = WlUnknown | WlNone | WlHorizontalRgb | WlHorizontalBgr | WlVerticalRgb | WlVerticalBgr

  function WlSubPixelValue(w: WlSubPixel): nat
  {
    match w
    case WlUnknown => 0
    case WlNone => 1
    case WlHorizontalRgb => 2
    case WlHorizontalBgr => 3
    case WlVerticalRgb => 4
    case WlVerticalBgr => 5
  }

  /** The modes of the org_kde_kwin_dpms protocol. */
  datatype WlDpmsMode = WlDpmsOn | WlDpmsStandby | WlDpmsSuspend | WlDpmsOff

  /** kwinTransformToOutputTransform: each transform goes to the same-named wl_output transform. */
  function ToWlTransform(t: Transform): (w: WlTransform)
    ensures WlTransformValue(w) == TransformOrdinal(t)
  {
    match t
    case Normal => WlNormal
    case Rotated90 => Wl90
    case Rotated180 => Wl180
    case Rotated270 => Wl270
    case Flipped => WlFlipped
    case Flipped90 => WlFlipped90
    case Flipped180 => WlFlipped180
    case Flipped270 => WlFlipped270
  }

  /** Distinct transforms are announced as distinct wl_output transforms. */
  lemma ToWlTransformInjective(a: Transform, b: Transform)
    ensures ToWlTransform(a) == ToWlTransform(b) ==> a == b
  {
    TransformOrdinalRoundTrip(a, 0);
    TransformOrdinalRoundTrip(b, 0);
  }

  /** kwinSubPixelToOutputSubPixel. */
  function ToWlSubPixel(s: SubPixel): (w: WlSubPixel)
    ensures WlSubPixelValue(w) == SubPixelOrdinal(s)
  {
    match s
    case Unknown => WlUnknown
    case NoSubPixel => WlNone
    case HorizontalRgb => WlHorizontalRgb
    case HorizontalBgr => WlHorizontalBgr
    case VerticalRgb => WlVerticalRgb
    case VerticalBgr => WlVerticalBgr
  }

  /** The subpixel translation is one to one and onto. */
  lemma ToWlSubPixelBijective(a: SubPixel, b: SubPixel, w: WlSubPixel)
    ensures ToWlSubPixel(a) == ToWlSubPixel(b) ==> a == b
    ensures exists s :: ToWlSubPixel(s) == w
  {
    SubPixelOrdinalRoundTrip(a, 0);
    SubPixelOrdinalRoundTrip(b, 0);
    var s := SubPixelFromOrdinal(WlSubPixelValue(w));
    assert ToWlSubPixel(s) == w;
  }

  /** kwinDpmsModeToOutputDpmsMode. */
  function ToWlDpms(m: DpmsMode): WlDpmsMode
  {
    match m
    case On => WlDpmsOn
    case Standby => WlDpmsStandby
    case Suspend => WlDpmsSuspend
    case Off => WlDpmsOff
  }

  /** outputDpmsModeToKWinDpmsMode: the inverse of ToWlDpms. */
  function FromWlDpms(w: WlDpmsMode): (m: DpmsMode)
    ensures ToWlDpms(m) == w
  {
    match w
    case WlDpmsOn => On
    case WlDpmsStandby => Standby
    case WlDpmsSuspend => Suspend
    case WlDpmsOff => Off
  }

  /** Both round trips through the DPMS translation are the identity. */
  lemma DpmsRoundTrip(m: DpmsMode, w: WlDpmsMode)
    ensures FromWlDpms(ToWlDpms(m)) == m
    ensures ToWlDpms(FromWlDpms(w)) == w
  {
  }

  /** std::ceil on a real. */
  function Ceil(x: real): (n: int)
    ensures x <= n as real < x + 1.0
  {
    if x.Floor as real == x then x.Floor else x.Floor + 1
  }

  /** WaylandOutput: the wl_output and xdg_output state advertised for one platform output. */
  class WaylandOutput {
    const platformOutput: Output
    var transform: WlTransform
    var manufacturer: string
    var model: string
    var physicalSize: Size
    var dpmsMode: WlDpmsMode
    var dpmsSupported: bool
    var globalPosition: Point
    var scale: int
    var modeSize: Size
    var refreshRate: int
    var subPixel: WlSubPixel
    var xdgName: string
    var xdgDescription: string
    var logicalPosition: Point
    var logicalSize: Size
    /** The number of done events sent on wl_output and on xdg_output. */
    var outputDone: nat
    var xdgDone: nat
    /** The single-shot timer that compresses updates is running. */
    var updatePending: bool

    /** The advertised geometry, scale, transform and mode are the output's current ones. */
    predicate InSync()
      reads this, platformOutput
    {
      platformOutput.scale != 0.0
      && globalPosition == platformOutput.position && logicalPosition == platformOutput.position
      && logicalSize == platformOutput.Geometry().size
      && scale == Ceil(platformOutput.scale) && transform == ToWlTransform(platformOutput.transform)
      && modeSize == platformOutput.modeSize && refreshRate == platformOutput.refreshRate
    }

    constructor(output: Output)
      requires output.scale != 0.0
      ensures platformOutput == output && InSync()
      ensures manufacturer == output.manufacturer && model == output.model && physicalSize == output.OrientedPhysicalSize()
      ensures dpmsMode == ToWlDpms(output.dpmsMode) && (dpmsSupported <==> DpmsCapability in output.capabilities)
      ensures subPixel == ToWlSubPixel(output.subPixel)
      ensures xdgName == output.name && xdgDescription == output.Description()
      ensures outputDone == 1 && xdgDone == 1 && !updatePending
    {
      platformOutput := output;
      transform := ToWlTransform(output.transform);
      manufacturer := output.manufacturer;
      model := output.model;
      physicalSize := output.OrientedPhysicalSize();
      dpmsMode := ToWlDpms(output.dpmsMode);
      dpmsSupported := DpmsCapability in output.capabilities;
      globalPosition := output.position;
      scale := Ceil(output.scale);
      modeSize, refreshRate := output.modeSize, output.refreshRate;
      subPixel := ToWlSubPixel(output.subPixel);
      xdgName := output.name;
      xdgDescription := output.Description();
      var geometry := output.Geometry();
      logicalPosition, logicalSize := geometry.topLeft, geometry.size;
      outputDone, xdgDone := 1, 1;
      updatePending := false;
    }

    /** scheduleUpdate: (re)starts the compression timer. */
    method ScheduleUpdate()
      modifies this`updatePending
      ensures updatePending
    {
      updatePending := true;
    }

    /** update, run when the timer fires: re-advertises the output's geometry, scale, transform and mode. */
    method Update()
      requires platformOutput.scale != 0.0
      modifies this`globalPosition, this`scale, this`transform, this`modeSize, this`refreshRate
      modifies this`logicalPosition, this`logicalSize, this`outputDone, this`xdgDone, this`updatePending
      ensures InSync() && !updatePending
      ensures outputDone == old(outputDone) + 1 && xdgDone == old(xdgDone) + 1
    {
      updatePending := false;
      globalPosition := platformOutput.position;
      scale := Ceil(platformOutput.scale);
      transform := ToWlTransform(platformOutput.transform);
      modeSize, refreshRate := platformOutput.modeSize, platformOutput.refreshRate;
      var geometry := platformOutput.Geometry();
      logicalPosition, logicalSize := geometry.topLeft, geometry.size;
      outputDone := outputDone + 1;
      xdgDone := xdgDone + 1;
    }

    method HandleDpmsModeChanged()
      modifies this`dpmsMode
      ensures dpmsMode == ToWlDpms(platformOutput.dpmsMode)
    {
      dpmsMode := ToWlDpms(platformOutput.dpmsMode);
    }

    /** handleDpmsModeRequested: forwards the translated mode to the output, whose base class ignores it. */
    method HandleDpmsModeRequested(m: WlDpmsMode)
      ensures unchanged(this) && unchanged(platformOutput)
    {
      platformOutput.SetDpmsMode(FromWlDpms(m));
    }
  }
}
