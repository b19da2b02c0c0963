// The DRM objects a KWin DrmGpu keeps track of, as values.
// Kernel objects (connectors, CRTCs, planes) are identified by their kernel
// object ids; the objects KWin allocates (pipelines, outputs, lease outputs)
// are identified by ids drawn from one counter, so an id stands for one
// heap object for its whole life.
module DrmObjects {
  import opened Common

  /** DRM_FORMAT_XRGB8888 and DRM_FORMAT_ARGB8888 as fourcc codes ('XR24', 'AR24'). */
  const DRM_FORMAT_XRGB8888: nat := 0x34325258
  const DRM_FORMAT_ARGB8888: nat := 0x34325241

  /**
   * A DrmConnector as KWin last read it: whether a display is connected,
   * its encoder ids, the "non-desktop" property (VR headsets) and the value
   * of its CRTC_ID property (the CRTC it currently drives, 0 if none).
   */
  datatype Connector = Connector(id: nat, connected: bool, encoders: seq<nat>, nonDesktop: bool, crtcHint: nat)

  /**
   * What the kernel reports for a connector id at this moment: whether
   * DrmConnector::init() would succeed, and the properties it would read.
   */
  datatype ConnectorProbe = ConnectorProbe(initOk: bool, connected: bool, encoders: seq<nat>, nonDesktop: bool, crtcHint: nat)

  /**
   * A DrmPlane: whether it is of type Primary, the CRTC indices it may be
   * attached to (possible_crtcs), the value of its CRTC_ID property and its
   * supported formats.
   */
  datatype Plane = Plane(id: nat, primary: bool, possibleCrtcs: set<nat>, boundCrtc: nat, formats: seq<nat>)

  /** A DrmCrtc: kernel id, index in the resource list, and its primary plane. */
  datatype Crtc = Crtc(id: nat, index: nat, primaryPlane: Option<nat>)

  /**
   * A DrmPipeline: one connector driven by one CRTC, the output it belongs
   * to, whether it is active, and whether its connector is non-desktop.
   */
  datatype Pipeline = Pipeline(connector: nat, crtc: Crtc, output: Option<nat>, active: bool, nonDesktop: bool)

  /** The members of m_outputs: hardware outputs (DrmOutput) and virtual ones. */
  datatype OutputObj =
    | DrmOutput(connector: nat, pipeline: Option<nat>, enabled: bool, dpmsOn: bool, flipPending: bool)
    | VirtualOutput(name: string, scale: real, placeholder: bool)

  /** A granted DRM lease: the Wayland lease request it answers and the kernel lessee id. */
  datatype Lease = Lease(request: nat, lessee: nat)

  /** A DrmLeaseOutput: a non-desktop pipeline offered for leasing, and its current lease. */
  datatype LeaseOutput = LeaseOutput(pipeline: nat, lease: Option<Lease>)

  /** The clocks the presentation timestamps can come from. */
  datatype Clock = Monotonic | Realtime

  /** Qt signals and externally visible calls made by DrmGpu, in the order they happen. */
  datatype GpuEvent =
    | OutputAdded(output: nat)
    | OutputRemoved(output: nat)
    | OutputEnabled(output: nat)
    | OutputDisabled(output: nat)
    | ModesUpdated(output: nat)
    | TransformRestored(output: nat)
    | LeaseDenied(leaseOutput: nat, lessee: nat)
    | LeaseRequestDenied(request: nat)
    | LeaseRequestGranted(request: nat, fd: int, lessee: nat)
    | LeaseEnded(leaseOutput: nat)
    | LesseeRevoked(lessee: nat)
    | FrameCompleted(output: nat, timestamp: int)

  /** The connector ids of a list of connectors. */
  function Ids(cs: seq<Connector>): (r: seq<nat>)
    ensures |r| == |cs|
    ensures forall i :: 0 <= i < |cs| ==> r[i] == cs[i].id
  {
    if cs == [] then [] else [cs[0].id] + Ids(cs[1..])
  }
}
