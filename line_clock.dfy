/** Line-clock pixellation, as a pure specification.
    A time-ordered stream of marker and photon records is turned into
    begin-frame, end-frame and pixel-photon notifications, using only the
    line-marker timing to find line and frame boundaries.  The state machine
    is written here as functions from a state and a record to the next state
    and the notifications emitted, in order; the class in module Pixellator
    is proved to behave exactly like these functions. */
module LineClock {
  import opened Bits

  /** A marker record: the set of asserted marker channels as a bit mask. */
  datatype MarkerEvent = MarkerEvent(bits: nat, macrotime: nat)

  /** A photon record; the pixellator reads only its macrotime. */
  datatype DecodedEvent = DecodedEvent(macrotime: nat)

  /** A photon addressed to pixel (x, y) of the current frame. */
  datatype PixelPhotonEvent = PixelPhotonEvent(x: nat, y: nat, macrotime: nat)

  /** One call made on the downstream processor. */
  datatype Note =
    | BeginFrame
    | EndFrame
    | PixelPhoton(event: PixelPhotonEvent)
    | Error(message: string)
    | Finish

  /** The constructor arguments.  maxFrames is carried but plays no part in
      the behaviour modelled here. */
  datatype Config = Config(width: nat, height: nat, maxFrames: nat,
                           lineDelay: int, lineTime: nat, lineMarkerBit: nat)

  predicate ValidConfig(c: Config)
  {
    c.width > 0 && c.height > 0 && c.lineTime > 0
  }

  /** Frame open or not, current line, start of the current line's pixel
      window (marker time plus line delay), and the latest macrotime seen. */
  datatype State = State(frameOpen: bool, lineIndex: nat, lineStartTime: int, lastSeenTime: nat)

  const Initial := State(false, 0, 0, 0)

  /** The line index stays inside the frame whenever a frame is open, and no
      inferred completion is left pending between calls. */
  predicate Inv(c: Config, s: State)
  {
    (s.frameOpen ==> s.lineIndex < c.height) && !LastLineElapsed(c, s)
  }

  datatype Step = Step(next: State, notes: seq<Note>)

  const NonMonotonicMessage := "Non-monotonic macrotime"

  predicate HasBit(bits: nat, b: nat)
  {
    (bits / Pow2(b)) % 2 == 1
  }

  /** Column of a photon that arrives d ticks after its line's window opened:
      the line time is divided evenly among the width pixels. */
  function PixelX(c: Config, d: nat): (x: nat)
    requires ValidConfig(c) && d < c.lineTime
    ensures x < c.width
  {
    PixelXBound(c.width, c.lineTime, d);
    d * c.width / c.lineTime
  }

  lemma PixelXBound(w: nat, l: nat, d: nat)
    requires w > 0 && l > 0 && d < l
    ensures d * w / l < w
  {
    var q := d * w / l;
    assert l * q <= d * w;
    assert d * w < l * w by {
      assert d * w <= (l - 1) * w;
      assert (l - 1) * w + w == l * w;
    }
  }

  predicate InWindow(c: Config, s: State, t: int)
  {
    s.frameOpen && s.lineStartTime <= t < s.lineStartTime + c.lineTime
  }

  /** Inferred completion: the frame's last line has lasted a full line time
      by the latest macrotime seen, so the frame ends without a marker. */
  predicate LastLineElapsed(c: Config, s: State)
  {
    s.frameOpen && s.lineIndex == c.height - 1 && s.lastSeenTime - s.lineStartTime >= c.lineTime
  }

  function Complete(c: Config, s: State): Step
  {
    if LastLineElapsed(c, s) then Step(s.(frameOpen := false), [EndFrame])
    else Step(s, [])
  }

  /** Effect of a line marker at time t on the line/frame state, before the
      latest macrotime is updated. */
  function AdvanceLine(c: Config, s: State, t: nat): Step
  {
    if !s.frameOpen then
      Step(s.(frameOpen := true, lineIndex := 0, lineStartTime := t + c.lineDelay), [BeginFrame])
    else if s.lineIndex == c.height - 1 then
      Step(s.(lineIndex := 0, lineStartTime := t + c.lineDelay), [EndFrame, BeginFrame])
    else
      Step(s.(lineIndex := s.lineIndex + 1, lineStartTime := t + c.lineDelay), [])
  }

  function OnMarker(c: Config, s: State, m: MarkerEvent): Step
  {
    if m.macrotime < s.lastSeenTime then Step(s, [Error(NonMonotonicMessage)])
    else
      var adv := if HasBit(m.bits, c.lineMarkerBit) then AdvanceLine(c, s, m.macrotime) else Step(s, []);
      var fin := Complete(c, adv.next.(lastSeenTime := m.macrotime));
      Step(fin.next, adv.notes + fin.notes)
  }

  function PhotonNotes(c: Config, s: State, t: nat): seq<Note>
    requires ValidConfig(c)
  {
    if InWindow(c, s, t) then
      [PixelPhoton(PixelPhotonEvent(PixelX(c, t - s.lineStartTime), s.lineIndex, t))]
    else []
  }

  function OnTimestamp(c: Config, s: State, e: DecodedEvent): Step
    requires ValidConfig(c)
  {
    if e.macrotime < s.lastSeenTime then Step(s, [Error(NonMonotonicMessage)])
    else
      var fin := Complete(c, s.(lastSeenTime := e.macrotime));
      Step(fin.next, PhotonNotes(c, s, e.macrotime) + fin.notes)
  }

  function OnFlush(c: Config, s: State): Step
  {
    Complete(c, s)
  }

  function OnFinish(s: State): Step
  {
    Step(s, [Finish])
  }

  /** A record delivered to the pixellator, or one of its calls without data. */
  datatype Record = Marker(m: MarkerEvent) | Timestamp(e: DecodedEvent) | FlushCall | FinishCall

  function OnRecord(c: Config, s: State, r: Record): Step
    requires ValidConfig(c)
  {
    match r
    case Marker(m) => OnMarker(c, s, m)
    case Timestamp(e) => OnTimestamp(c, s, e)
    case FlushCall => OnFlush(c, s)
    case FinishCall => OnFinish(s)
  }

  /** The state reached and every notification emitted over a stream. */
  function Run(c: Config, s: State, rs: seq<Record>): Step
    requires ValidConfig(c)
    decreases |rs|
  {
    if rs == [] then Step(s, [])
    else
      var first := OnRecord(c, s, rs[0]);
      var rest := Run(c, first.next, rs[1..]);
      Step(rest.next, first.notes + rest.notes)
  }

  // ---------------------------------------------------------------------
  // Frame bracketing: notifications reach the processor as
  // Begin (Photon)* End Begin (Photon)* End ..., never two Begins in a row,
  // never an End without its Begin, never a photon outside a frame.

  predicate Bracketed(open: bool, notes: seq<Note>)
    decreases |notes|
  {
    if notes == [] then true
    else match notes[0]
      case BeginFrame => !open && Bracketed(true, notes[1..])
      case EndFrame => open && Bracketed(false, notes[1..])
      case PixelPhoton(_) => open && Bracketed(open, notes[1..])
      case _ => Bracketed(open, notes[1..])
  }

  /** Whether a frame is open after the notifications, starting from open. */
  function OpenAfter(open: bool, notes: seq<Note>): bool
    decreases |notes|
  {
    if notes == [] then open
    else match notes[0]
      case BeginFrame => OpenAfter(true, notes[1..])
      case EndFrame => OpenAfter(false, notes[1..])
      case _ => OpenAfter(open, notes[1..])
  }

  function Count(notes: seq<Note>, n: Note): nat
    decreases |notes|
  {
    if notes == [] then 0
    else (if notes[0] == n then 1 else 0) + Count(notes[1..], n)
  }

  lemma {:induction false} BracketedAppend(open: bool, a: seq<Note>, b: seq<Note>)
    requires Bracketed(open, a) && Bracketed(OpenAfter(open, a), b)
    ensures Bracketed(open, a + b)
    ensures OpenAfter(open, a + b) == OpenAfter(OpenAfter(open, a), b)
    decreases |a|
  {
    if a != [] {
      assert (a + b)[0] == a[0];
      assert (a + b)[1..] == a[1..] + b;
      var open' := match a[0]
        case BeginFrame => true
        case EndFrame => false
        case _ => open;
      BracketedAppend(open', a[1..], b);
    } else {
      assert a + b == b;
    }
  }

  lemma {:induction false} CountAppend(a: seq<Note>, b: seq<Note>, n: Note)
    ensures Count(a + b, n) == Count(a, n) + Count(b, n)
    decreases |a|
  {
    if a != [] {
      assert (a + b)[0] == a[0];
      assert (a + b)[1..] == a[1..] + b;
      CountAppend(a[1..], b, n);
    } else {
      assert a + b == b;
    }
  }

  /** Every begin-frame is matched by at most one end-frame: along bracketed
      notifications the ends plus the frames left open equal the begins plus
      the frames open at the start. */
  lemma {:induction false} BracketedBalance(open: bool, notes: seq<Note>)
    requires Bracketed(open, notes)
    ensures Count(notes, EndFrame) + (if OpenAfter(open, notes) then 1 else 0)
         == Count(notes, BeginFrame) + (if open then 1 else 0)
    decreases |notes|
  {
    if notes != [] {
      var open' := match notes[0]
        case BeginFrame => true
        case EndFrame => false
        case _ => open;
      BracketedBalance(open', notes[1..]);
    }
  }

  /** Each single record keeps the invariant and emits bracketed
      notifications that leave the frame exactly as open as the new state
      says. */
  lemma StepBracketed(c: Config, s: State, r: Record)
    requires ValidConfig(c) && Inv(c, s)
    ensures var st := OnRecord(c, s, r);
      Inv(c, st.next) && Bracketed(s.frameOpen, st.notes) && OpenAfter(s.frameOpen, st.notes) == st.next.frameOpen
  {
    match r
    case Marker(m) =>
      if m.macrotime >= s.lastSeenTime {
        var adv := if HasBit(m.bits, c.lineMarkerBit) then AdvanceLine(c, s, m.macrotime) else Step(s, []);
        var fin := Complete(c, adv.next.(lastSeenTime := m.macrotime));
        assert Bracketed(s.frameOpen, adv.notes) && OpenAfter(s.frameOpen, adv.notes) == adv.next.frameOpen;
        BracketedAppend(s.frameOpen, adv.notes, fin.notes);
      }
    case Timestamp(e) =>
      if e.macrotime >= s.lastSeenTime {
        var fin := Complete(c, s.(lastSeenTime := e.macrotime));
        BracketedAppend(s.frameOpen, PhotonNotes(c, s, e.macrotime), fin.notes);
      }
    case FlushCall =>
    case FinishCall =>
  }

  /** Over any stream the invariant holds and the notifications are
      bracketed. */
  lemma {:induction false} RunBracketed(c: Config, s: State, rs: seq<Record>)
    requires ValidConfig(c) && Inv(c, s)
    ensures var st := Run(c, s, rs);
      Inv(c, st.next) && Bracketed(s.frameOpen, st.notes) && OpenAfter(s.frameOpen, st.notes) == st.next.frameOpen
    decreases |rs|
  {
    if rs != [] {
      var first := OnRecord(c, s, rs[0]);
      StepBracketed(c, s, rs[0]);
      RunBracketed(c, first.next, rs[1..]);
      BracketedAppend(s.frameOpen, first.notes, Run(c, first.next, rs[1..]).notes);
    }
  }

  /** From a fresh pixellator, end-frames never outnumber begin-frames and at
      most one frame is left open, whatever the stream. */
  lemma FramesBalanced(c: Config, rs: seq<Record>)
    requires ValidConfig(c)
    ensures var st := Run(c, Initial, rs);
      Count(st.notes, EndFrame) <= Count(st.notes, BeginFrame) <= Count(st.notes, EndFrame) + 1
      && (st.next.frameOpen <==> Count(st.notes, BeginFrame) == Count(st.notes, EndFrame) + 1)
  {
    RunBracketed(c, Initial, rs);
    BracketedBalance(false, Run(c, Initial, rs).notes);
  }

  // ---------------------------------------------------------------------
  // Flush

  /** Between calls no completion is pending, so Flush emits nothing and
      changes nothing: repeated Flushes, or a Flush after any record, add no
      notification. */
  lemma FlushSilent(c: Config, s: State)
    requires Inv(c, s)
    ensures OnFlush(c, s) == Step(s, [])
  {
  }

  lemma FlushAfterRecordSilent(c: Config, s: State, r: Record)
    requires ValidConfig(c) && Inv(c, s)
    ensures var st := OnRecord(c, s, r);
      OnFlush(c, st.next) == Step(st.next, [])
  {
    StepBracketed(c, s, r);
  }

  // ---------------------------------------------------------------------
  // Line markers and frame boundaries

  lemma {:induction false} RunSnoc(c: Config, s: State, rs: seq<Record>, r: Record)
    requires ValidConfig(c)
    ensures var p := Run(c, s, rs);
      var last := OnRecord(c, p.next, r);
      Run(c, s, rs + [r]) == Step(last.next, p.notes + last.notes)
    decreases |rs|
  {
    if rs == [] {
      assert [] + [r] == [r];
    } else {
      var first := OnRecord(c, s, rs[0]);
      assert (rs + [r])[0] == rs[0];
      assert (rs + [r])[1..] == rs[1..] + [r];
      var q := Run(c, first.next, rs[1..]);
      var last := OnRecord(c, q.next, r);
      assert Run(c, first.next, rs[1..] + [r]) == Step(last.next, q.notes + last.notes) by {
        RunSnoc(c, first.next, rs[1..], r);
      }
      assert first.notes + (q.notes + last.notes) == (first.notes + q.notes) + last.notes;
    }
  }

  /** A line marker on an open frame moves to the next line, wrapping to
      line 0 of a new frame after the last line, and emits an end-frame and
      a begin-frame exactly then.  No completion can be inferred right after
      a marker as long as the line delay is above minus one line time. */
  lemma LineMarkerOnOpenFrame(c: Config, s: State, m: MarkerEvent)
    requires ValidConfig(c) && Inv(c, s) && s.frameOpen
    requires HasBit(m.bits, c.lineMarkerBit) && m.macrotime >= s.lastSeenTime
    requires c.lineDelay + c.lineTime > 0
    ensures var st := OnMarker(c, s, m);
      st.next == State(true, (s.lineIndex + 1) % c.height, m.macrotime + c.lineDelay, m.macrotime)
      && st.notes == (if s.lineIndex == c.height - 1 then [EndFrame, BeginFrame] else [])
  {
  }

  /** The first line marker on a fresh pixellator opens a frame. */
  lemma FirstLineMarker(c: Config, m: MarkerEvent)
    requires ValidConfig(c) && HasBit(m.bits, c.lineMarkerBit)
    requires c.lineDelay + c.lineTime > 0
    ensures OnMarker(c, Initial, m) == Step(State(true, 0, m.macrotime + c.lineDelay, m.macrotime), [BeginFrame])
  {
  }

  /** The record stream of line markers only, at the given times. */
  function LineMarkers(c: Config, times: seq<nat>): (rs: seq<Record>)
    ensures |rs| == |times|
    ensures forall i :: 0 <= i < |times| ==> rs[i] == Marker(MarkerEvent(Pow2(c.lineMarkerBit), times[i]))
  {
    if times == [] then [] else LineMarkers(c, times[..|times| - 1]) + [Marker(MarkerEvent(Pow2(c.lineMarkerBit), times[|times| - 1]))]
  }

  predicate NonDecreasing(times: seq<nat>)
  {
    forall i, j :: 0 <= i <= j < |times| ==> times[i] <= times[j]
  }

  lemma DivModStep(n: nat, h: nat)
    requires h > 0 && n > 0
    ensures (n - 1) % h == h - 1 ==> n % h == 0 && n / h == (n - 1) / h + 1
    ensures (n - 1) % h != h - 1 ==> n % h == (n - 1) % h + 1 && n / h == (n - 1) / h
  {
    var q, r := (n - 1) / h, (n - 1) % h;
    assert n - 1 == q * h + r;
    if r == h - 1 {
      DivUnique(n, h, q + 1, 0);
    } else {
      DivUnique(n, h, q, r + 1);
    }
    assert n == (n / h) * h + n % h;
  }

  /** What n line markers leave behind, as LineMarkerStream states it. */
  predicate AfterLineMarkers(c: Config, times: seq<nat>, st: Step)
    requires ValidConfig(c) && |times| > 0
  {
    var n := |times|;
    st.next == State(true, (n - 1) % c.height, times[n - 1] + c.lineDelay, times[n - 1])
    && Count(st.notes, BeginFrame) == (n - 1) / c.height + 1
    && Count(st.notes, EndFrame) == (n - 1) / c.height
  }

  /** Given height H, n line markers (with no inferred completion between
      them) leave the frame open on line (n-1) mod H, after one begin-frame
      for the first marker and one end-frame plus begin-frame for every
      (kH+1)-th marker. */
  lemma {:induction false} LineMarkerStream(c: Config, times: seq<nat>)
    requires ValidConfig(c) && c.lineDelay + c.lineTime > 0
    requires |times| > 0 && NonDecreasing(times)
    ensures AfterLineMarkers(c, times, Run(c, Initial, LineMarkers(c, times)))
    decreases |times|
  {
    var n := |times|;
    var prefix := times[..n - 1];
    if n == 1 {
      var m := MarkerEvent(Pow2(c.lineMarkerBit), times[0]);
      assert LineMarkers(c, times) == [Marker(m)];
      FirstLineMarker(c, m);
      assert Run(c, Initial, [Marker(m)]) == Step(OnMarker(c, Initial, m).next, OnMarker(c, Initial, m).notes + []);
      assert [BeginFrame] + [] == [BeginFrame];
    } else {
      assert NonDecreasing(prefix);
      LineMarkerStream(c, prefix);
      assert times == prefix + [times[n - 1]];
      assert times[n - 2] <= times[n - 1];
      LineMarkerStreamStep(c, prefix, times[n - 1]);
    }
  }

  lemma LineMarkerStreamStep(c: Config, prefix: seq<nat>, t: nat)
    requires ValidConfig(c) && c.lineDelay + c.lineTime > 0
    requires |prefix| > 0 && prefix[|prefix| - 1] <= t
    requires AfterLineMarkers(c, prefix, Run(c, Initial, LineMarkers(c, prefix)))
    ensures AfterLineMarkers(c, prefix + [t], Run(c, Initial, LineMarkers(c, prefix + [t])))
  {
    var times := prefix + [t];
    var r := Marker(MarkerEvent(Pow2(c.lineMarkerBit), t));
    assert times[..|times| - 1] == prefix;
    assert LineMarkers(c, times) == LineMarkers(c, prefix) + [r];
    RunSnoc(c, Initial, LineMarkers(c, prefix), r);
    LineMarkerAfter(c, prefix, t, Run(c, Initial, LineMarkers(c, prefix)));
  }

  /** One more line marker, at t, after the state the earlier ones left. */
  lemma LineMarkerAfter(c: Config, prefix: seq<nat>, t: nat, p: Step)
    requires ValidConfig(c) && c.lineDelay + c.lineTime > 0
    requires |prefix| > 0 && prefix[|prefix| - 1] <= t
    requires AfterLineMarkers(c, prefix, p)
    ensures var last := OnRecord(c, p.next, Marker(MarkerEvent(Pow2(c.lineMarkerBit), t)));
      AfterLineMarkers(c, prefix + [t], Step(last.next, p.notes + last.notes))
  {
    var n := |prefix| + 1;
    var m := MarkerEvent(Pow2(c.lineMarkerBit), t);
    assert HasBit(m.bits, c.lineMarkerBit) by {
      assert Pow2(c.lineMarkerBit) / Pow2(c.lineMarkerBit) == 1;
    }
    var last := OnMarker(c, p.next, m);
    CountAppend(p.notes, last.notes, BeginFrame);
    CountAppend(p.notes, last.notes, EndFrame);
    LineMarkerOnOpenFrame(c, p.next, m);
    MarkerCountStep(n - 1, c.height, p.next.lineIndex, Count(p.notes, BeginFrame), Count(p.notes, EndFrame),
      Count(last.notes, BeginFrame), Count(last.notes, EndFrame), last.notes);
  }

  lemma MarkerCountStep(k: nat, h: nat, i: nat, b: nat, e: nat, b': nat, e': nat, notes: seq<Note>)
    requires h > 0 && k > 0 && i == (k - 1) % h
    requires b == (k - 1) / h + 1 && e == (k - 1) / h
    requires notes == (if i == h - 1 then [EndFrame, BeginFrame] else [])
    requires b' == Count(notes, BeginFrame) && e' == Count(notes, EndFrame)
    ensures (i + 1) % h == k % h && b + b' == k / h + 1 && e + e' == k / h
  {
    DivModStep(k, h);
    if i == h - 1 {
      assert notes[1..] == [BeginFrame] && notes[1..][1..] == [];
      assert Count(notes[1..], BeginFrame) == 1 && Count(notes[1..], EndFrame) == 0;
    } else {
      assert (i + 1) % h == i + 1;
    }
  }

  // ---------------------------------------------------------------------
  // Inferred completion of the last line

  /** On the frame's last line started at time t, a record before t + L
      emits no frame notification; the first one at or after t + L emits
      exactly one end-frame (and no photon, since it is past the line) and
      closes the frame. */
  lemma InferredCompletion(c: Config, s: State, e: DecodedEvent)
    requires ValidConfig(c) && Inv(c, s) && s.frameOpen && s.lineIndex == c.height - 1
    requires e.macrotime >= s.lastSeenTime
    ensures var st := OnTimestamp(c, s, e);
      if e.macrotime >= s.lineStartTime + c.lineTime then
        st == Step(s.(frameOpen := false, lastSeenTime := e.macrotime), [EndFrame])
      else
        st.next == s.(lastSeenTime := e.macrotime)
        && Count(st.notes, BeginFrame) == 0 && Count(st.notes, EndFrame) == 0
  {
    var t := e.macrotime;
    if t < s.lineStartTime + c.lineTime {
      var ph := PhotonNotes(c, s, t);
      PhotonNotesNoFrames(c, s, t);
      assert ph + [] == ph;
    }
  }

  /** A photon is never a begin- or end-frame. */
  lemma PhotonNotesNoFrames(c: Config, s: State, t: nat)
    requires ValidConfig(c)
    ensures Count(PhotonNotes(c, s, t), BeginFrame) == 0 && Count(PhotonNotes(c, s, t), EndFrame) == 0
  {
    var ph := PhotonNotes(c, s, t);
    if ph != [] {
      assert ph[1..] == [];
    }
  }

  /** A frame whose last line has not started is never ended by time alone:
      no sequence of photon records and Flushes emits a begin- or end-frame
      or changes the line, however late the photons are. */
  lemma {:induction false} IncompleteFrameStaysOpen(c: Config, s: State, rs: seq<Record>)
    requires ValidConfig(c) && Inv(c, s) && s.frameOpen && s.lineIndex < c.height - 1
    requires forall i :: 0 <= i < |rs| ==> !rs[i].Marker?
    ensures var st := Run(c, s, rs);
      st.next.frameOpen && st.next.lineIndex == s.lineIndex && st.next.lineStartTime == s.lineStartTime
      && Count(st.notes, BeginFrame) == 0 && Count(st.notes, EndFrame) == 0
    decreases |rs|
  {
    if rs != [] {
      var first := OnRecord(c, s, rs[0]);
      match rs[0] {
        case Timestamp(e) =>
          if e.macrotime >= s.lastSeenTime {
            var ph := PhotonNotes(c, s, e.macrotime);
            PhotonNotesNoFrames(c, s, e.macrotime);
            assert first.notes == ph + [];
          }
        case FlushCall =>
        case FinishCall =>
      }
      StepBracketed(c, s, rs[0]);
      IncompleteFrameStaysOpen(c, first.next, rs[1..]);
      CountAppend(first.notes, Run(c, first.next, rs[1..]).notes, BeginFrame);
      CountAppend(first.notes, Run(c, first.next, rs[1..]).notes, EndFrame);
    }
  }

  // ---------------------------------------------------------------------
  // Pixel addressing

  /** A photon inside the current line's window is delivered first, on the
      current line, at a column inside the frame, with its own macrotime; a
      photon outside it (or with no frame open) is dropped silently. */
  lemma PhotonAddressing(c: Config, s: State, e: DecodedEvent)
    requires ValidConfig(c) && Inv(c, s) && e.macrotime >= s.lastSeenTime
    ensures var st := OnTimestamp(c, s, e);
      if InWindow(c, s, e.macrotime) then
        |st.notes| > 0 && st.notes[0].PixelPhoton?
        && st.notes[0].event.y == s.lineIndex < c.height
        && st.notes[0].event.x < c.width
        && st.notes[0].event.macrotime == e.macrotime
      else
        forall i :: 0 <= i < |st.notes| ==> !st.notes[i].PixelPhoton?
  {
  }

  /** With the line time split into width dwell windows of p ticks each, a
      photon k windows and r ticks into the line lands in column k. */
  lemma PixelXOfDwell(c: Config, p: nat, k: nat, r: nat)
    requires ValidConfig(c) && c.lineTime == c.width * p
    requires r < p && k < c.width
    ensures k * p + r < c.lineTime && PixelX(c, k * p + r) == k
  {
    DwellColumn(c.width, p, k, r);
  }

  lemma DwellColumn(w: nat, p: nat, k: nat, r: nat)
    requires r < p && k < w
    ensures k * p + r < w * p && (k * p + r) * w / (w * p) == k
  {
    var d := k * p + r;
    assert d < w * p by {
      assert (k + 1) * p == k * p + p;
      MulLeRight(k + 1, w, p);
    }
    assert d * w == k * (w * p) + r * w by {
      assert d * w == (k * p) * w + r * w;
      assert (k * p) * w == k * (w * p);
    }
    assert r * w < w * p by {
      MulLeRight(r + 1, p, w);
      assert (r + 1) * w == r * w + w;
      assert p * w == w * p;
    }
    DivUnique(d * w, w * p, k, r * w);
  }

  lemma MulLeRight(a: nat, b: nat, p: nat)
    requires a <= b
    ensures a * p <= b * p
  {
    assert b * p == a * p + (b - a) * p;
  }

  lemma DivUnique(a: nat, b: nat, q: nat, m: nat)
    requires b > 0 && m < b && a == q * b + m
    ensures a / b == q
  {
    var q', m' := a / b, a % b;
    assert a == q' * b + m';
    assert q' < q ==> (q' + 1) * b <= q * b;
    assert q < q' ==> (q + 1) * b <= q' * b;
  }
}
