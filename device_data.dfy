/** The device's private data record and the enumerations it uses.  They are
    declared in BH_SPC150Private.h, which is not part of this model; only the
    fields that the modelled code reads or writes are kept. */
module DeviceData {

  datatype MarkerPolarity = Disabled | RisingEdge | FallingEdge

  /** Where the line markers sit relative to the pixels of their line. */
  datatype PixelMappingMode = LineStartMarkers | LineEndMarkers | OtherMode(code: int)

  /** An unsigned 32-bit marker bit holding -1: no marker assigned. */
  const UnassignedMarkerBit: nat := 0xFFFF_FFFF

  /** The stop request of one acquisition: a promise that may be satisfied
      once. */
  class AcqState {
    var stopRequested: bool

    constructor ()
      ensures !stopRequested
    {
      stopRequested := false;
    }
  }

  /** The settings fields of the device record. */
  datatype Parameters = Parameters(
    moduleNr: int, channelMask: nat, accumulateIntensity: bool, compressHistograms: bool,
    pixelMarkerBit: nat, lineMarkerBit: nat, frameMarkerBit: nat,
    pixelMappingMode: PixelMappingMode, lineDelayPx: real,
    spcFilename: string, sdtFilename: string, checkSyncBeforeAcq: bool)

  /** All settings zero.  The enumerators numbered 0 are taken to be
      Disabled and LineStartMarkers. */
  const ZeroParameters := Parameters(0, 0, false, false, 0, 0, 0, LineStartMarkers, 0.0, "", "", false)

  class PrivateData {
    var moduleNr: int
    var channelMask: nat
    var accumulateIntensity: bool
    var compressHistograms: bool
    /** One polarity per marker bit; its length is the number of marker bits. */
    const markerActiveEdges: array<MarkerPolarity>
    var pixelMarkerBit: nat
    var lineMarkerBit: nat
    var frameMarkerBit: nat
    var pixelMappingMode: PixelMappingMode
    var lineDelayPx: real
    var spcFilename: string
    var sdtFilename: string
    var checkSyncBeforeAcq: bool
    var acqState: AcqState?
    /** Whether the rate-counter monitor handle is held. */
    var rateMonitorRunning: bool

    /** The settings the record holds: every field but the acquisition
        state and the rate monitor. */
    function Params(): Parameters
      reads this
    {
      Parameters(moduleNr, channelMask, accumulateIntensity, compressHistograms,
                 pixelMarkerBit, lineMarkerBit, frameMarkerBit, pixelMappingMode, lineDelayPx,
                 spcFilename, sdtFilename, checkSyncBeforeAcq)
    }

    /** The record as calloc leaves it, for the one module supported
        (module number 0): every setting zero, every marker disabled, no
        acquisition and no rate monitor. */
    constructor (numMarkerBits: nat)
      ensures markerActiveEdges.Length == numMarkerBits && fresh(markerActiveEdges)
      ensures Params() == ZeroParameters
      ensures forall i :: 0 <= i < markerActiveEdges.Length ==> markerActiveEdges[i] == Disabled
      ensures acqState == null && !rateMonitorRunning
    {
      moduleNr, channelMask := 0, 0;
      accumulateIntensity, compressHistograms := false, false;
      markerActiveEdges := new MarkerPolarity[numMarkerBits](_ => Disabled);
      pixelMarkerBit, lineMarkerBit, frameMarkerBit := 0, 0, 0;
      pixelMappingMode := LineStartMarkers;
      lineDelayPx := 0.0;
      spcFilename, sdtFilename := "", "";
      checkSyncBeforeAcq := false;
      acqState := null;
      rateMonitorRunning := false;
    }
  }
}
