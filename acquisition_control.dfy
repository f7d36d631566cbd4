/** Acquisition setup: marker checks, marker polarity masks, the enabled
    channel check, the pixel-mapping mode and its line-delay adjustment, and
    the one-shot stop request. */
module AcquisitionControl {
  import opened DeviceData
  import opened Bits

  // ---------------------------------------------------------------------
  // Marker assignment

  /** A marker bit is assigned when it names one of the marker inputs. */
  predicate Assigned(edges: seq<MarkerPolarity>, b: nat)
  {
    b < |edges|
  }

  /** The marker rules: assigned pixel, line and frame markers use distinct
      bits, and the line marker is assigned and enabled.  The pixel and frame
      markers need not be enabled. */
  predicate MarkersValid(edges: seq<MarkerPolarity>, pixelBit: nat, lineBit: nat, frameBit: nat)
  {
    && (Assigned(edges, pixelBit) && Assigned(edges, lineBit) ==> pixelBit != lineBit)
    && (Assigned(edges, pixelBit) && Assigned(edges, frameBit) ==> pixelBit != frameBit)
    && (Assigned(edges, lineBit) && Assigned(edges, frameBit) ==> lineBit != frameBit)
    && Assigned(edges, lineBit) && edges[lineBit] != Disabled
  }

  /** Returns 0 exactly when the marker rules hold, 1 otherwise. */
  method CheckMarkers(data: PrivateData) returns (err: int)
    ensures err == 0 || err == 1
    ensures err == 0 <==> MarkersValid(data.markerActiveEdges[..], data.pixelMarkerBit, data.lineMarkerBit, data.frameMarkerBit)
  {
    var n := data.markerActiveEdges.Length;
    var usedMarkers: set<nat> := {};
    if data.pixelMarkerBit < n {
      usedMarkers := usedMarkers + {data.pixelMarkerBit};
    }
    if data.lineMarkerBit < n {
      if data.lineMarkerBit in usedMarkers {
        return 1; // Duplicate marker assignment
      }
      usedMarkers := usedMarkers + {data.lineMarkerBit};
    }
    if data.frameMarkerBit < n {
      if data.frameMarkerBit in usedMarkers {
        return 1; // Duplicate marker assignment
      }
    }
    if data.lineMarkerBit >= n {
      return 1; // Line marker required
    }
    if data.markerActiveEdges[data.lineMarkerBit] == Disabled {
      return 1; // Line marker required
    }
    return 0;
  }

  // ---------------------------------------------------------------------
  // Marker polarity masks

  /** The enabled and rising-edge masks handed to the board, each given by
      the set of its bit positions: bit i of enabled is set iff marker i is
      not disabled, bit i of risingEdgeActive iff marker i is active on the
      rising edge.  The board takes 16-bit masks, so at most 16 marker bits
      are described. */
  method ConfigureMarkers(data: PrivateData) returns (enabled: set<nat>, risingEdgeActive: set<nat>)
    requires data.markerActiveEdges.Length <= 16
    ensures forall i: nat :: i in enabled <==> i < data.markerActiveEdges.Length && data.markerActiveEdges[i] != Disabled
    ensures forall i: nat :: i in risingEdgeActive <==> i < data.markerActiveEdges.Length && data.markerActiveEdges[i] == RisingEdge
    ensures risingEdgeActive <= enabled
  {
    var edges := data.markerActiveEdges;
    enabled, risingEdgeActive := {}, {};
    for i := 0 to edges.Length
      invariant forall j: nat :: j in enabled <==> j < i && edges[j] != Disabled
      invariant forall j: nat :: j in risingEdgeActive <==> j < i && edges[j] == RisingEdge
    {
      if edges[i] != Disabled {
        enabled := enabled + {i};
      }
      if edges[i] == RisingEdge {
        risingEdgeActive := risingEdgeActive + {i};
      }
    }
  }

  // ---------------------------------------------------------------------
  // Channels

  /** The number of enabled channels: the set bits among the low
      maxChannels bits of the mask (the bit set keeps only those). */
  function EnabledChannelCount(mask: nat, maxChannels: nat): (n: nat)
    ensures n <= maxChannels
  {
    if maxChannels == 0 then 0
    else (mask % 2) + EnabledChannelCount(mask / 2, maxChannels - 1)
  }

  /** No channel is enabled exactly when the low maxChannels bits of the
      mask are all clear. */
  lemma {:induction false} NoChannelEnabled(mask: nat, maxChannels: nat)
    ensures EnabledChannelCount(mask, maxChannels) == 0 <==> mask % Pow2(maxChannels) == 0
  {
    if maxChannels > 0 {
      NoChannelEnabled(mask / 2, maxChannels - 1);
      ModDouble(mask, Pow2(maxChannels - 1));
    }
  }

  lemma ModDouble(m: nat, p: nat)
    requires p > 0
    ensures m % (2 * p) == 0 <==> m % 2 == 0 && (m / 2) % p == 0
  {
    var q, r := (m / 2) / p, (m / 2) % p;
    assert m == 2 * (q * p + r) + m % 2;
    assert m == (2 * p) * q + (2 * r + m % 2);
    assert 2 * r + m % 2 < 2 * p;
    DivModUnique(m, 2 * p, q, 2 * r + m % 2);
  }

  lemma DivModUnique(a: nat, b: nat, q: nat, r: nat)
    requires b > 0 && r < b && a == b * q + r
    ensures a % b == r
  {
    var q', r' := a / b, a % b;
    assert a == b * q' + r';
    assert q' < q ==> b * (q' + 1) <= b * q;
    assert q < q' ==> b * (q + 1) <= b * q';
  }

  // ---------------------------------------------------------------------
  // Pixel mapping and line delay

  /** Two's-complement reinterpretation of an integer as int32. */
  function I32(x: int): (r: int)
    ensures -0x8000_0000 <= r < 0x8000_0000
    ensures -0x8000_0000 <= x < 0x8000_0000 ==> r == x
    ensures (r - x) % 0x1_0000_0000 == 0
  {
    (x + 0x8000_0000) % 0x1_0000_0000 - 0x8000_0000
  }

  datatype Timing = Timing(lineDelay: int, lineTime: nat)

  /** With line-start markers the line delay stands; with line-end markers a
      line time is taken off it (32-bit arithmetic); other modes are not
      implemented. */
  function LineTiming(mode: PixelMappingMode, lineDelay: int, lineTime: nat): (r: Option<Timing>)
    ensures mode.OtherMode? <==> r.None?
    ensures mode == LineStartMarkers ==> r == Some(Timing(lineDelay, lineTime))
    ensures mode == LineEndMarkers ==>
      && r.Some? && r.value.lineTime == lineTime
      && (r.value.lineDelay - (lineDelay - lineTime)) % 0x1_0000_0000 == 0
      && (-0x8000_0000 <= lineDelay - lineTime < 0x8000_0000 ==> r.value.lineDelay == lineDelay - lineTime)
  {
    match mode
    case LineStartMarkers => Some(Timing(lineDelay, lineTime))
    case LineEndMarkers => Some(Timing(I32(lineDelay - lineTime), lineTime))
    case OtherMode(_) => None
  }

  datatype Option<T> = None | Some(value: T)

  // ---------------------------------------------------------------------
  // Setup checks of StartAcquisition, in the order the code makes them

  /** What the setup reads from the device data. */
  datatype Settings = Settings(edges: seq<MarkerPolarity>, pixelMarkerBit: nat, lineMarkerBit: nat,
                               frameMarkerBit: nat, channelMask: nat, pixelMappingMode: PixelMappingMode)

  /** The outcomes of the board calls the setup makes. */
  datatype BoardResults = BoardResults(setMarkerPolaritiesErr: int, setUpAcquisitionErr: int, standardFifo: bool)

  /** What processing is set up with, or the error code returned. */
  datatype SetupResult =
    | SetupOk(lineDelay: int, lineTime: nat, lineMarkerBit: nat, channelCount: nat)
    | SetupFailed(err: int)

  /** lineTime and lineDelay are the macrotime conversions of the line width
      and of the line delay in pixels. */
  function SetupStatus(s: Settings, maxChannels: nat, board: BoardResults, lineTime: nat, lineDelay: int): (r: SetupResult)
    ensures r.SetupOk? <==>
      board.setMarkerPolaritiesErr == 0
      && MarkersValid(s.edges, s.pixelMarkerBit, s.lineMarkerBit, s.frameMarkerBit)
      && EnabledChannelCount(s.channelMask, maxChannels) >= 1
      && !s.pixelMappingMode.OtherMode?
      && board.setUpAcquisitionErr == 0 && board.standardFifo
    ensures r.SetupFailed? ==> r.err != 0
    ensures r.SetupOk? ==>
      && r.lineMarkerBit == s.lineMarkerBit && r.lineMarkerBit < |s.edges|
      && r.channelCount == EnabledChannelCount(s.channelMask, maxChannels) >= 1
      && LineTiming(s.pixelMappingMode, lineDelay, lineTime) == Some(Timing(r.lineDelay, r.lineTime))
  {
    if board.setMarkerPolaritiesErr != 0 then SetupFailed(board.setMarkerPolaritiesErr)
    else if !MarkersValid(s.edges, s.pixelMarkerBit, s.lineMarkerBit, s.frameMarkerBit) then SetupFailed(1)
    else if EnabledChannelCount(s.channelMask, maxChannels) < 1 then SetupFailed(1) // No channel enabled
    else if s.pixelMappingMode.OtherMode? then SetupFailed(1) // Unimplemented mode
    else if board.setUpAcquisitionErr != 0 then SetupFailed(board.setUpAcquisitionErr)
    else if !board.standardFifo then SetupFailed(1) // Unsupported data format
    else
      var t := LineTiming(s.pixelMappingMode, lineDelay, lineTime).value;
      SetupOk(t.lineDelay, t.lineTime, s.lineMarkerBit, EnabledChannelCount(s.channelMask, maxChannels))
  }

  // ---------------------------------------------------------------------
  // Stopping

  /** All stopping goes through here: the first request satisfies the
      promise, a repeated one is absorbed. */
  method RequestAcquisitionStop(acqState: AcqState)
    modifies acqState
    ensures acqState.stopRequested
  {
    if !acqState.stopRequested {
      acqState.stopRequested := true;
    }
  }

  /** Requests a stop of the current acquisition, if there is one. */
  method StopAcquisition(data: PrivateData)
    modifies data.acqState
    ensures data.acqState != null ==> data.acqState.stopRequested
  {
    if data.acqState == null {
      return;
    }
    RequestAcquisitionStop(data.acqState);
  }

  /** Before the device shuts down: an acquisition still held is asked to
      stop and is then released. */
  method ShutdownAcquisitionState(data: PrivateData)
    modifies data, data.acqState
    ensures data.acqState == null
    ensures old(data.acqState) != null ==> old(data.acqState).stopRequested
    ensures data.rateMonitorRunning == old(data.rateMonitorRunning)
    ensures data.Params() == old(data.Params())
  {
    if data.acqState == null {
      return;
    }
    RequestAcquisitionStop(data.acqState);
    data.acqState := null;
  }
}
