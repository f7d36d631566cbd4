/** The device lifecycle of the Becker & Hickl SPC-150 module: the default
    parameters, the process-wide board state shared by every device (whether
    the board is initialized, how many devices are open), opening and closing
    a device, and the request check made when an acquisition is armed.  The
    vendor and framework calls are parameters carrying their results. */
module BHSPC150 {
  import opened DeviceData
  import opened AcquisitionControl

  /** The error codes the device returns.  Code(c) passes on a non-zero
      error code of a lower layer. */
  datatype Status = Ok | AlreadyOpen | Unknown | UnsupportedOperation | Code(c: int)

  /** A lower layer's integer result as a device error. */
  function FromCode(c: int): (r: Status)
    ensures r == Ok <==> c == 0
    ensures r != Ok ==> r == Code(c)
  {
    if c == 0 then Ok else Code(c)
  }

  // ---------------------------------------------------------------------
  // Default parameters

  const DefaultSpcFilename: string := "OpenScan-BHSPC.spc"
  const DefaultSdtFilename: string := "OpenScan-BHSPC.sdt"

  /** The record as PopulateDefaultParameters leaves it: all fields zero but
      channel 0 enabled, intensity accumulated, every marker active on the
      rising edge, no pixel marker, line marker 1, frame marker 2, line-end
      mapping, no line delay, the default file names and the sync check on. */
  ghost predicate DefaultParameters(data: PrivateData)
    reads data, data.markerActiveEdges
  {
    && data.Params() == Parameters(0, 1, true, false, UnassignedMarkerBit, 1, 2, LineEndMarkers, 0.0,
                                   DefaultSpcFilename, DefaultSdtFilename, true)
    && (forall i :: 0 <= i < data.markerActiveEdges.Length ==> data.markerActiveEdges[i] == RisingEdge)
    && data.acqState == null
  }

  method PopulateDefaultParameters(data: PrivateData)
    modifies data, data.markerActiveEdges
    ensures DefaultParameters(data) && !data.rateMonitorRunning
    ensures SettingsOf(data.markerActiveEdges[..], data) == DefaultSettings(data.markerActiveEdges.Length)
  {
    // The record is cleared first.
    data.moduleNr, data.channelMask := 0, 0;
    data.accumulateIntensity, data.compressHistograms := false, false;
    data.acqState, data.rateMonitorRunning := null, false;

    data.channelMask := 1; // channel 0 only
    data.accumulateIntensity := true;
    SetAllRisingEdge(data.markerActiveEdges);
    data.pixelMarkerBit := UnassignedMarkerBit;
    data.lineMarkerBit := 1;
    data.frameMarkerBit := 2;
    data.pixelMappingMode := LineEndMarkers;
    data.lineDelayPx := 0.0;
    data.spcFilename := DefaultSpcFilename;
    data.sdtFilename := DefaultSdtFilename;
    data.checkSyncBeforeAcq := true;
    DefaultRecordSettings(data);
  }

  /** The loop of PopulateDefaultParameters over the marker bits. */
  method SetAllRisingEdge(edges: array<MarkerPolarity>)
    modifies edges
    ensures forall i :: 0 <= i < edges.Length ==> edges[i] == RisingEdge
  {
    for i := 0 to edges.Length
      invariant forall j :: 0 <= j < i ==> edges[j] == RisingEdge
    {
      edges[i] := RisingEdge;
    }
  }

  /** What the acquisition setup reads from the record. */
  function SettingsOf(edges: seq<MarkerPolarity>, data: PrivateData): (s: Settings)
    reads data
    ensures s.edges == edges && s.channelMask == data.channelMask
    ensures s.pixelMarkerBit == data.pixelMarkerBit && s.lineMarkerBit == data.lineMarkerBit
    ensures s.frameMarkerBit == data.frameMarkerBit && s.pixelMappingMode == data.pixelMappingMode
  {
    Settings(edges, data.pixelMarkerBit, data.lineMarkerBit, data.frameMarkerBit,
             data.channelMask, data.pixelMappingMode)
  }

  /** The default marker settings over n marker inputs. */
  function DefaultSettings(n: nat): (s: Settings)
    ensures |s.edges| == n
  {
    Settings(seq(n, _ => RisingEdge), UnassignedMarkerBit, 1, 2, 1, LineEndMarkers)
  }

  /** With more than two marker inputs the default markers pass the marker
      check: line and frame markers are distinct, the pixel marker is
      unassigned, and the line marker is enabled. */
  lemma DefaultMarkersValid(n: nat)
    requires 2 < n <= UnassignedMarkerBit
    ensures var s := DefaultSettings(n);
      MarkersValid(s.edges, s.pixelMarkerBit, s.lineMarkerBit, s.frameMarkerBit)
  {
  }

  /** Only the low bit of the default channel mask is set, so one channel is
      enabled on a board with at least one channel. */
  lemma {:induction false} DefaultChannelCount(maxChannels: nat)
    requires maxChannels >= 1
    ensures EnabledChannelCount(1, maxChannels) == 1
  {
    NoBitsNoChannels(maxChannels - 1);
  }

  lemma {:induction false} NoBitsNoChannels(maxChannels: nat)
    ensures EnabledChannelCount(0, maxChannels) == 0
  {
    if maxChannels > 0 {
      NoBitsNoChannels(maxChannels - 1);
    }
  }

  /** With the defaults and a board that accepts the configuration, the setup
      succeeds with one channel, line marker 1, and the line delay moved back
      by one line (line-end markers). */
  lemma DefaultsSetUp(n: nat, maxChannels: nat, lineTime: nat, lineDelay: int)
    requires 2 < n <= UnassignedMarkerBit && maxChannels >= 1
    ensures var r := SetupStatus(DefaultSettings(n), maxChannels, BoardResults(0, 0, true), lineTime, lineDelay);
      r == SetupOk(I32(lineDelay - lineTime), lineTime, 1, 1)
  {
    DefaultMarkersValid(n);
    DefaultChannelCount(maxChannels);
  }

  /** The record PopulateDefaultParameters leaves holds the default
      settings. */
  lemma DefaultRecordSettings(data: PrivateData)
    requires DefaultParameters(data)
    ensures SettingsOf(data.markerActiveEdges[..], data) == DefaultSettings(data.markerActiveEdges.Length)
  {
    assert data.markerActiveEdges[..] == seq(data.markerActiveEdges.Length, _ => RisingEdge);
  }

  /** The record PopulateDefaultParameters leaves passes the setup checks
      of a board that accepts the configuration. */
  lemma DefaultRecordSetsUp(data: PrivateData, maxChannels: nat, lineTime: nat, lineDelay: int)
    requires DefaultParameters(data)
    requires 2 < data.markerActiveEdges.Length <= UnassignedMarkerBit && maxChannels >= 1
    ensures SetupStatus(SettingsOf(data.markerActiveEdges[..], data), maxChannels, BoardResults(0, 0, true), lineTime, lineDelay)
            == SetupOk(I32(lineDelay - lineTime), lineTime, 1, 1)
  {
    DefaultRecordSettings(data);
    DefaultsSetUp(data.markerActiveEdges.Length, maxChannels, lineTime, lineDelay);
  }

  // ---------------------------------------------------------------------
  // Board state shared by all devices

  /** size_t arithmetic. */
  const SizeModulus: nat := 0x1_0000_0000_0000_0000

  type SizeT = n: nat | n < 0x1_0000_0000_0000_0000

  /** Whether the board is initialized, and how many devices are open. */
  datatype Globals = Globals(initialized: bool, openDeviceCount: SizeT)

  const Startup := Globals(false, 0)

  /** At most one device is open, and only on an initialized board. */
  ghost predicate SingleOpen(g: Globals)
  {
    g.openDeviceCount <= 1 && (g.openDeviceCount == 1 ==> g.initialized)
  }

  /** EnsureFLIMBoardInitialized given the vendor initialization result.  A
      second initialization is refused, since only one module is supported. */
  function EnsureStep(g: Globals, spcInitResult: int): (r: (Globals, Status))
    ensures r.0.openDeviceCount == g.openDeviceCount
    ensures g.initialized ==> r == (g, AlreadyOpen)
    ensures !g.initialized ==> (r.1 == Ok <==> spcInitResult >= 0) && (r.1 == Ok || r.1 == Unknown)
    ensures r.0.initialized <==> g.initialized || spcInitResult >= 0
  {
    if g.initialized then (g, AlreadyOpen)
    else if spcInitResult < 0 then (g, Unknown)
    else (g.(initialized := true), Ok)
  }

  /** DeinitializeFLIMBoard: the board is closed if it was open. */
  function DeinitStep(g: Globals): (r: (Globals, Status))
    ensures r == (g.(initialized := false), Ok)
  {
    if !g.initialized then (g, Ok)
    else (g.(initialized := false), Ok)
  }

  /** BH_Open given the vendor results: the open count rises only when the
      board initialization and the acquisition configuration both succeed. */
  function OpenStep(g: Globals, spcInitResult: int, acqInitResult: int): (r: (Globals, Status))
    ensures r.1 == Ok <==> !g.initialized && spcInitResult >= 0 && acqInitResult == 0
    ensures r.1 == Ok ==> r.0 == Globals(true, (g.openDeviceCount + 1) % SizeModulus)
    ensures r.1 != Ok ==> r.0 == EnsureStep(g, spcInitResult).0
  {
    var (g1, err) := EnsureStep(g, spcInitResult);
    if err != Ok then (g1, err)
    else if acqInitResult != 0 then (g1, Code(acqInitResult))
    else (g1.(openDeviceCount := (g1.openDeviceCount + 1) % SizeModulus), Ok)
  }

  /** BH_Close: the open count falls (size_t arithmetic) and the board is
      closed when it reaches zero. */
  function CloseStep(g: Globals): (r: Globals)
    ensures r.openDeviceCount == (g.openDeviceCount + SizeModulus - 1) % SizeModulus
    ensures r.initialized <==> g.initialized && g.openDeviceCount != 1
  {
    var g1 := g.(openDeviceCount := (g.openDeviceCount + SizeModulus - 1) % SizeModulus);
    if g1.openDeviceCount == 0 then DeinitStep(g1).0 else g1
  }

  /** Closing twice is closing once. */
  lemma DeinitIdempotent(g: Globals)
    ensures DeinitStep(DeinitStep(g).0) == DeinitStep(g)
  {
  }

  /** Opening keeps at most one device open, whatever the vendor calls
      return; so does closing an open device. */
  lemma OpenKeepsSingleOpen(g: Globals, spcInitResult: int, acqInitResult: int)
    requires SingleOpen(g)
    ensures SingleOpen(OpenStep(g, spcInitResult, acqInitResult).0)
  {
  }

  lemma CloseKeepsSingleOpen(g: Globals)
    requires SingleOpen(g) && g.openDeviceCount == 1
    ensures SingleOpen(CloseStep(g))
    ensures CloseStep(g) == Startup
  {
  }

  /** While a device is open a second open is refused and changes nothing. */
  lemma SecondOpenRefused(g: Globals, spcInitResult: int, acqInitResult: int)
    requires SingleOpen(g) && g.openDeviceCount == 1
    ensures OpenStep(g, spcInitResult, acqInitResult) == (g, AlreadyOpen)
  {
  }

  /** A failure after the board came up leaves it initialized with no device
      counted, and every later open is refused. */
  lemma FailedOpenKeepsBoard(spcInitResult: int, acqInitResult: int)
    requires spcInitResult >= 0 && acqInitResult != 0
    ensures OpenStep(Startup, spcInitResult, acqInitResult) == (Globals(true, 0), Code(acqInitResult))
    ensures forall s, a :: OpenStep(Globals(true, 0), s, a) == (Globals(true, 0), AlreadyOpen)
  {
  }

  /** Opening then closing from startup returns to startup. */
  lemma OpenCloseRoundTrip(spcInitResult: int)
    requires spcInitResult >= 0
    ensures OpenStep(Startup, spcInitResult, 0) == (Globals(true, 1), Ok)
    ensures CloseStep(OpenStep(Startup, spcInitResult, 0).0) == Startup
  {
  }

  /** The process-wide board state. */
  class Driver {
    var initialized: bool
    var openDeviceCount: SizeT

    constructor ()
      ensures State() == Startup
    {
      initialized, openDeviceCount := false, 0;
    }

    function State(): Globals
      reads this
    {
      Globals(initialized, openDeviceCount)
    }

    method EnsureFLIMBoardInitialized(spcInitResult: int) returns (err: Status)
      modifies this
      ensures (State(), err) == EnsureStep(old(State()), spcInitResult)
    {
      if initialized {
        return AlreadyOpen; // only one module is supported
      }
      if spcInitResult < 0 {
        return Unknown;
      }
      initialized := true;
      return Ok;
    }

    method DeinitializeFLIMBoard() returns (err: Status)
      modifies this
      ensures (State(), err) == DeinitStep(old(State()))
    {
      if !initialized {
        return Ok;
      }
      initialized := false;
      return Ok;
    }

    /** BH_Open: spcInitResult is what the vendor initialization returns,
        acqInitResult what configuring the board for FIFO acquisition
        returns.  The parameters are reset once the board is up, and the
        rate monitor is started on success. */
    method Open(data: PrivateData, spcInitResult: int, acqInitResult: int) returns (err: Status)
      modifies this, data, data.markerActiveEdges
      ensures (State(), err) == OpenStep(old(State()), spcInitResult, acqInitResult)
      ensures EnsureStep(old(State()), spcInitResult).1 != Ok ==>
        unchanged(data) && unchanged(data.markerActiveEdges)
      ensures EnsureStep(old(State()), spcInitResult).1 == Ok ==>
        DefaultParameters(data) && (data.rateMonitorRunning <==> err == Ok)
    {
      err := EnsureFLIMBoardInitialized(spcInitResult);
      if err != Ok {
        return;
      }
      PopulateDefaultParameters(data);
      if acqInitResult != 0 {
        return Code(acqInitResult);
      }
      data.rateMonitorRunning := true;
      openDeviceCount := (openDeviceCount + 1) % SizeModulus;
      return Ok;
    }

    /** BH_Close: the acquisition is shut down, the rate monitor stopped, and
        the board closed with the last open device.  It always succeeds. */
    method Close(data: PrivateData) returns (err: Status)
      modifies this, data, data.acqState
      ensures State() == CloseStep(old(State())) && err == Ok
      ensures data.acqState == null && !data.rateMonitorRunning
      ensures old(data.acqState) != null ==> old(data.acqState).stopRequested
      ensures data.Params() == old(data.Params())
    {
      ShutdownAcquisitionState(data);
      data.rateMonitorRunning := false;
      openDeviceCount := (openDeviceCount + SizeModulus - 1) % SizeModulus;
      if openDeviceCount == 0 {
        err := DeinitializeFLIMBoard();
        if err != Ok {
          return;
        }
      }
      return Ok;
    }
  }

  // ---------------------------------------------------------------------
  // Arming an acquisition

  datatype ClockSource = InternalClock | ExternalClock

  /** The device only detects, on an external clock: any other request is
      unsupported.  startAcquisitionErr is what starting the acquisition
      returns. */
  function Arm(useClock: bool, useScanner: bool, useDetector: bool, clockSource: ClockSource,
               startAcquisitionErr: int): (r: Status)
    ensures r == UnsupportedOperation <==> useClock || useScanner || !useDetector || clockSource != ExternalClock
    ensures r != UnsupportedOperation ==> r == FromCode(startAcquisitionErr)
  {
    if useClock || useScanner || !useDetector then UnsupportedOperation
    else if clockSource != ExternalClock then UnsupportedOperation
    else if startAcquisitionErr != 0 then Code(startAcquisitionErr)
    else Ok
  }
}
