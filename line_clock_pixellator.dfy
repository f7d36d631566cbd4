/** The line-clock pixellator as an object, its recording processor, and the
    scenarios of the pixellator's test replayed against both as verified
    scenarios.  Each pixellator
    method is proved to change the state and to call the processor exactly
    as the matching step function of module LineClock says. */
module Pixellator {
  import opened LineClock
  import opened Bits

  /** Everything the recording processor holds. */
  datatype Observation = Observation(beginFrameCount: nat, endFrameCount: nat,
                                     pixelPhotons: seq<PixelPhotonEvent>, errors: seq<string>,
                                     finishCount: nat)

  const Empty := Observation(0, 0, [], [], 0)

  /** What the recording processor holds after receiving one notification. */
  function Receive(o: Observation, n: Note): Observation
  {
    match n
    case BeginFrame => o.(beginFrameCount := o.beginFrameCount + 1)
    case EndFrame => o.(endFrameCount := o.endFrameCount + 1)
    case PixelPhoton(e) => o.(pixelPhotons := o.pixelPhotons + [e])
    case Error(msg) => o.(errors := o.errors + [msg])
    case Finish => o.(finishCount := o.finishCount + 1)
  }

  /** What the recording processor holds after receiving the notifications
      in order.  Its counters are the counts of each kind. */
  function Deliver(o: Observation, notes: seq<Note>): (r: Observation)
    ensures r.beginFrameCount == o.beginFrameCount + Count(notes, BeginFrame)
    ensures r.endFrameCount == o.endFrameCount + Count(notes, EndFrame)
    ensures r.finishCount == o.finishCount + Count(notes, Finish)
    decreases |notes|
  {
    if notes == [] then o else Deliver(Receive(o, notes[0]), notes[1..])
  }

  lemma {:induction false} DeliverAppend(o: Observation, a: seq<Note>, b: seq<Note>)
    ensures Deliver(o, a + b) == Deliver(Deliver(o, a), b)
    decreases |a|
  {
    if a == [] {
      assert a + b == b;
    } else {
      assert (a + b)[0] == a[0];
      assert (a + b)[1..] == a[1..] + b;
      DeliverAppend(Receive(o, a[0]), a[1..], b);
    }
  }

  lemma DeliverFew(o: Observation, a: Note, b: Note)
    ensures Deliver(o, []) == o
    ensures Deliver(o, [a]) == Receive(o, a)
    ensures Deliver(o, [a, b]) == Receive(Receive(o, a), b)
  {
    assert [a][1..] == [] && [b][1..] == [];
    assert [a, b][1..] == [b];
    assert Deliver(Receive(o, a), [b]) == Receive(Receive(o, a), b);
  }

  /** The counting processor of the pixellator's test. */
  class MockProcessor {
    var beginFrameCount: nat
    var endFrameCount: nat
    var pixelPhotons: seq<PixelPhotonEvent>
    var errors: seq<string>
    var finishCount: nat

    function Observed(): Observation
      reads this
    {
      Observation(beginFrameCount, endFrameCount, pixelPhotons, errors, finishCount)
    }

    constructor ()
      ensures Observed() == Empty
    {
      beginFrameCount, endFrameCount, finishCount := 0, 0, 0;
      pixelPhotons, errors := [], [];
    }

    method Reset()
      modifies this
      ensures beginFrameCount == 0 && endFrameCount == 0 && finishCount == 0
      ensures pixelPhotons == [] && errors == []
    {
      beginFrameCount := 0;
      endFrameCount := 0;
      pixelPhotons := [];
      errors := [];
      finishCount := 0;
    }

    method HandleBeginFrame()
      modifies this
      ensures Observed() == Receive(old(Observed()), BeginFrame)
      ensures Observed() == old(Observed()).(beginFrameCount := old(beginFrameCount) + 1)
    {
      beginFrameCount := beginFrameCount + 1;
    }

    method HandleEndFrame()
      modifies this
      ensures Observed() == Receive(old(Observed()), EndFrame)
      ensures Observed() == old(Observed()).(endFrameCount := old(endFrameCount) + 1)
    {
      endFrameCount := endFrameCount + 1;
    }

    method HandlePixelPhoton(event: PixelPhotonEvent)
      modifies this
      ensures Observed() == Receive(old(Observed()), PixelPhoton(event))
      ensures Observed() == old(Observed()).(pixelPhotons := old(pixelPhotons) + [event])
    {
      pixelPhotons := pixelPhotons + [event];
    }

    method HandleError(message: string)
      modifies this
      ensures Observed() == Receive(old(Observed()), Error(message))
      ensures Observed() == old(Observed()).(errors := old(errors) + [message])
    {
      errors := errors + [message];
    }

    method HandleFinish()
      modifies this
      ensures Observed() == Receive(old(Observed()), Finish)
      ensures Observed() == old(Observed()).(finishCount := old(finishCount) + 1)
    {
      finishCount := finishCount + 1;
    }
  }

  class LineClockPixellator {
    const width: nat
    const height: nat
    const maxFrames: nat
    const lineDelay: int
    const lineTime: nat
    const lineMarkerBit: nat
    const output: MockProcessor

    var frameOpen: bool
    var lineIndex: nat
    var lineStartTime: int
    var lastSeenTime: nat

    function Cfg(): Config
    {
      Config(width, height, maxFrames, lineDelay, lineTime, lineMarkerBit)
    }

    function State(): LineClock.State
      reads this
    {
      LineClock.State(frameOpen, lineIndex, lineStartTime, lastSeenTime)
    }

    ghost predicate Valid()
      reads this
    {
      ValidConfig(Cfg()) && Inv(Cfg(), State())
    }

    /** Width, height and line time must be positive.  The test's call
        names no line-marker bit; its line markers carry bit 1. */
    constructor (width: nat, height: nat, maxFrames: nat, lineDelay: int, lineTime: nat,
                 output: MockProcessor, lineMarkerBit: nat := 1)
      requires width > 0 && height > 0 && lineTime > 0
      ensures Valid() && State() == Initial && this.output == output
      ensures Cfg() == Config(width, height, maxFrames, lineDelay, lineTime, lineMarkerBit)
    {
      this.width, this.height, this.maxFrames := width, height, maxFrames;
      this.lineDelay, this.lineTime, this.lineMarkerBit := lineDelay, lineTime, lineMarkerBit;
      this.output := output;
      frameOpen, lineIndex, lineStartTime, lastSeenTime := false, 0, 0, 0;
    }

    /** The shared inferred-completion check. */
    method CheckLastLineCompletion()
      requires ValidConfig(Cfg()) && (frameOpen ==> lineIndex < height)
      modifies this, output
      ensures State() == Complete(Cfg(), old(State())).next
      ensures output.Observed() == Deliver(old(output.Observed()), Complete(Cfg(), old(State())).notes)
    {
      if frameOpen && lineIndex == height - 1 && lastSeenTime - lineStartTime >= lineTime {
        output.HandleEndFrame();
        frameOpen := false;
      }
    }

    /** What a line marker at t does to the line and frame: a closed frame
        opens on line 0, the last line wraps to line 0 of a new frame, any
        other line moves to the next; the new line's window opens at t plus
        the line delay. */
    method AdvanceLineAt(t: nat)
      requires Valid()
      modifies this, output
      ensures State() == AdvanceLine(Cfg(), old(State()), t).next
      ensures output.Observed() == Deliver(old(output.Observed()), AdvanceLine(Cfg(), old(State()), t).notes)
    {
      DeliverFew(output.Observed(), BeginFrame, BeginFrame);
      DeliverFew(output.Observed(), EndFrame, BeginFrame);
      if !frameOpen {
        output.HandleBeginFrame();
        frameOpen, lineIndex := true, 0;
      } else if lineIndex == height - 1 {
        output.HandleEndFrame();
        output.HandleBeginFrame();
        lineIndex := 0;
      } else {
        lineIndex := lineIndex + 1;
      }
      lineStartTime := t + lineDelay;
    }

    method HandleMarker(event: MarkerEvent)
      requires Valid()
      modifies this, output
      ensures Valid()
      ensures State() == OnMarker(Cfg(), old(State()), event).next
      ensures output.Observed() == Deliver(old(output.Observed()), OnMarker(Cfg(), old(State()), event).notes)
    {
      StepBracketed(Cfg(), State(), Marker(event));
      if event.macrotime < lastSeenTime {
        DeliverFew(output.Observed(), Error(NonMonotonicMessage), Error(NonMonotonicMessage));
        output.HandleError(NonMonotonicMessage);
        return;
      }
      ghost var s0, o0 := State(), output.Observed();
      if HasBit(event.bits, lineMarkerBit) {
        AdvanceLineAt(event.macrotime);
      }
      ghost var adv := if HasBit(event.bits, lineMarkerBit) then AdvanceLine(Cfg(), s0, event.macrotime) else Step(s0, []);
      DeliverFew(o0, BeginFrame, BeginFrame);
      assert State() == adv.next && output.Observed() == Deliver(o0, adv.notes);
      lastSeenTime := event.macrotime;
      ghost var fin := Complete(Cfg(), adv.next.(lastSeenTime := event.macrotime));
      CheckLastLineCompletion();
      DeliverAppend(o0, adv.notes, fin.notes);
      assert OnMarker(Cfg(), s0, event) == Step(fin.next, adv.notes + fin.notes);
    }

    method HandleTimestamp(event: DecodedEvent)
      requires Valid()
      modifies this, output
      ensures Valid()
      ensures State() == OnTimestamp(Cfg(), old(State()), event).next
      ensures output.Observed() == Deliver(old(output.Observed()), OnTimestamp(Cfg(), old(State()), event).notes)
    {
      StepBracketed(Cfg(), State(), Timestamp(event));
      if event.macrotime < lastSeenTime {
        output.HandleError(NonMonotonicMessage);
        return;
      }
      ghost var s0, o0 := State(), output.Observed();
      if frameOpen && lineStartTime <= event.macrotime < lineStartTime + lineTime {
        var x := (event.macrotime - lineStartTime) * width / lineTime;
        output.HandlePixelPhoton(PixelPhotonEvent(x, lineIndex, event.macrotime));
      }
      assert output.Observed() == Deliver(o0, PhotonNotes(Cfg(), s0, event.macrotime));
      lastSeenTime := event.macrotime;
      CheckLastLineCompletion();
      DeliverAppend(o0, PhotonNotes(Cfg(), s0, event.macrotime), Complete(Cfg(), s0.(lastSeenTime := event.macrotime)).notes);
    }

    method Flush()
      requires Valid()
      modifies this, output
      ensures Valid()
      ensures State() == OnFlush(Cfg(), old(State())).next
      ensures output.Observed() == Deliver(old(output.Observed()), OnFlush(Cfg(), old(State())).notes)
    {
      CheckLastLineCompletion();
    }

    /** Forwards the end of the stream; an open frame is left open. */
    method HandleFinish()
      requires Valid()
      modifies output
      ensures Valid()
      ensures State() == OnFinish(old(State())).next
      ensures output.Observed() == Deliver(old(output.Observed()), OnFinish(old(State())).notes)
    {
      output.HandleFinish();
    }
  }

  /** A pixellator, or none when width, height or line time is not positive
      (the construction error). */
  method Create(width: nat, height: nat, maxFrames: nat, lineDelay: int, lineTime: nat,
                output: MockProcessor, lineMarkerBit: nat) returns (p: LineClockPixellator?)
    ensures p == null <==> !(width > 0 && height > 0 && lineTime > 0)
    ensures p != null ==> fresh(p) && p.Valid() && p.State() == Initial && p.output == output
  {
    if width > 0 && height > 0 && lineTime > 0 {
      p := new LineClockPixellator(width, height, maxFrames, lineDelay, lineTime, output, lineMarkerBit);
    } else {
      p := null;
    }
  }

  /** The begin- and end-frame counts the test reads at one REQUIRE point. */
  function Counts(output: MockProcessor): (nat, nat)
    reads output
  {
    (output.beginFrameCount, output.endFrameCount)
  }

  /** The begin- and end-frames among notifications. */
  function FrameCounts(notes: seq<Note>): (nat, nat)
  {
    (Count(notes, BeginFrame), Count(notes, EndFrame))
  }

  /** One checked step of the test: a record, then Flush, and the
      begin- and end-frame counts read from a freshly reset processor. */
  function Checked(c: Config, s: State, r: Record): (State, (nat, nat))
    requires ValidConfig(c)
  {
    var st := OnRecord(c, s, r);
    var fl := OnFlush(c, st.next);
    (fl.next, FrameCounts(st.notes + fl.notes))
  }

  /** A record, then Flush, the counts read, then Reset: the state moves
      and the counts are read as Checked says, and the processor is left
      reset. */
  method CheckedStep(lcp: LineClockPixellator, r: Record) returns (counts: (nat, nat))
    requires lcp.Valid() && lcp.output.Observed() == Empty && (r.Marker? || r.Timestamp?)
    modifies lcp, lcp.output
    ensures lcp.Valid() && lcp.output.Observed() == Empty
    ensures (lcp.State(), counts) == Checked(lcp.Cfg(), old(lcp.State()), r)
  {
    ghost var s0 := lcp.State();
    if r.Marker? {
      lcp.HandleMarker(r.m);
    } else {
      lcp.HandleTimestamp(r.e);
    }
    ghost var st := OnRecord(lcp.Cfg(), s0, r);
    assert lcp.State() == st.next && lcp.output.Observed() == Deliver(Empty, st.notes);
    ghost var fl := OnFlush(lcp.Cfg(), st.next);
    lcp.Flush();
    ghost var o := Deliver(Deliver(Empty, st.notes), fl.notes);
    assert lcp.State() == fl.next && lcp.output.Observed() == o;
    DeliveredFrameCounts(st.notes, fl.notes);
    counts := Counts(lcp.output);
    lcp.output.Reset();
    assert Checked(lcp.Cfg(), s0, r) == (fl.next, FrameCounts(st.notes + fl.notes));
  }

  /** The frame counts a fresh processor shows after two batches of
      notifications. */
  lemma DeliveredFrameCounts(a: seq<Note>, b: seq<Note>)
    ensures Deliver(Deliver(Empty, a), b).beginFrameCount == Count(a + b, BeginFrame)
    ensures Deliver(Deliver(Empty, a), b).endFrameCount == Count(a + b, EndFrame)
  {
    CountAppend(a, b, BeginFrame);
    CountAppend(a, b, EndFrame);
  }

  /** The configuration of the test: 2x2 pixels, at most 10 frames, no line
      delay, line time 20, line markers on bit 1. */
  const TestConfig := Config(2, 2, 10, 0, 20, 1)

  function LineMarkerAt(t: nat): Record
  {
    Marker(MarkerEvent(2, t))
  }

  /** The line-marker steps of the test, worked out. */
  lemma LineMarkerSteps()
    ensures Checked(TestConfig, Initial, LineMarkerAt(100)) == (LineClock.State(true, 0, 100, 100), (1, 0))
    ensures Checked(TestConfig, LineClock.State(true, 0, 100, 100), LineMarkerAt(200)) == (LineClock.State(true, 1, 200, 200), (0, 0))
    ensures Checked(TestConfig, LineClock.State(true, 1, 200, 200), LineMarkerAt(300)) == (LineClock.State(true, 0, 300, 300), (1, 1))
    ensures Checked(TestConfig, LineClock.State(true, 0, 300, 300), LineMarkerAt(400)) == (LineClock.State(true, 1, 400, 400), (0, 0))
  {
    assert HasBit(2, 1) by {
      assert Pow2(1) == 2;
    }
    SmallFrameCounts();
    assert [BeginFrame] + [] + [] == [BeginFrame];
    assert [EndFrame, BeginFrame] + [] + [] == [EndFrame, BeginFrame];
  }

  /** The photon steps of the test, worked out. */
  lemma PhotonSteps()
    ensures Checked(TestConfig, LineClock.State(true, 0, 300, 300), Timestamp(DecodedEvent(1000000))).1 == (0, 0)
    ensures Checked(TestConfig, LineClock.State(true, 1, 400, 400), Timestamp(DecodedEvent(419))) == (LineClock.State(true, 1, 400, 419), (0, 0))
    ensures Checked(TestConfig, LineClock.State(true, 1, 400, 419), Timestamp(DecodedEvent(420))).1 == (0, 1)
  {
    SmallFrameCounts();
    assert [] + [EndFrame] + [] == [EndFrame];
    var photon := PixelPhoton(PixelPhotonEvent(1, 1, 419));
    assert [photon] + [] + [] == [photon];
    assert FrameCounts([photon]) == (0, 0) by {
      assert [photon][1..] == [];
    }
  }

  lemma SmallFrameCounts()
    ensures FrameCounts([]) == (0, 0) && FrameCounts([BeginFrame]) == (1, 0)
    ensures FrameCounts([EndFrame]) == (0, 1) && FrameCounts([EndFrame, BeginFrame]) == (1, 1)
  {
    assert [BeginFrame][1..] == [] && [EndFrame][1..] == [];
    assert [EndFrame, BeginFrame][1..] == [BeginFrame];
  }

  /** The shared part of the "2x2 frames with no photons" section: line
      markers (bit 1) at 100, 200 and 300, each followed by a Flush, the
      counts read and the processor reset. */
  method TwoByTwoLineMarkers() returns (output: MockProcessor, lcp: LineClockPixellator, observed: seq<(nat, nat)>)
    ensures fresh(output) && fresh(lcp) && lcp.Valid() && lcp.output == output
    ensures lcp.Cfg() == TestConfig
    ensures lcp.State() == LineClock.State(true, 0, 300, 300)
    ensures output.Observed() == Empty
    ensures observed == [(1, 0), (0, 0), (1, 1)]
  {
    output := new MockProcessor();
    output.Reset();
    lcp := new LineClockPixellator(2, 2, 10, 0, 20, output);
    LineMarkerSteps();
    var first := CheckedStep(lcp, LineMarkerAt(100));
    var second := CheckedStep(lcp, LineMarkerAt(200));
    var third := CheckedStep(lcp, LineMarkerAt(300));
    observed := [first, second, third];
  }

  /** Section "Last frame is incomplete if last line not started": a photon
      at 1000000 and a Flush end nothing. */
  method LastFrameIncompleteScenario() returns (observed: seq<(nat, nat)>)
    ensures observed == [(1, 0), (0, 0), (1, 1), (0, 0)]
  {
    var output, lcp;
    output, lcp, observed := TwoByTwoLineMarkers();
    PhotonSteps();
    var counts := CheckedStep(lcp, Timestamp(DecodedEvent(1000000)));
    observed := [observed[0], observed[1], observed[2], counts];
  }

  /** Section "Last frame completion detected by last seen timestamp": the
      last line starts at 400; a photon at 419 ends nothing, one at 420 ends
      the frame without beginning another. */
  method LastFrameCompletedScenario() returns (observed: seq<(nat, nat)>)
    ensures observed == [(1, 0), (0, 0), (1, 1), (0, 0), (0, 0), (0, 1)]
  {
    var output, lcp, earlier := TwoByTwoLineMarkers();
    LineMarkerSteps();
    PhotonSteps();
    var lastLine := CheckedStep(lcp, LineMarkerAt(400));
    var before := CheckedStep(lcp, Timestamp(DecodedEvent(419)));
    var after := CheckedStep(lcp, Timestamp(DecodedEvent(420)));
    observed := [earlier[0], earlier[1], earlier[2], lastLine, before, after];
  }
}
