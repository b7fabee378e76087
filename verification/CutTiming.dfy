/**
 When segments and parts are cut, and what they hold, as a function of the frames pushed: every
 statement here is about the list of events and the cuts it led to, not about the segmenter's state.
 */
module CutTiming {
  import opened Wrappers
  import opened Decimal
  import opened Segmenter
  import opened Conservation

  // ------------------------------------------------------------------------------------------
  // Reading the events.

  /** The frames of one track in events[from..to], in order. */
  function FramesOf(events: seq<Event>, from: nat, to: nat, track: TrackKind): seq<Frame>
    requires from <= to <= |events|
  {
    if from == to then []
    else
      FramesOf(events, from, to - 1, track)
      + if events[to - 1].Push? && events[to - 1].frame.track == track then [events[to - 1].frame] else []
  }

  function Samples(frames: seq<Frame>): (r: seq<Sample>)
    ensures |r| == |frames|
  {
    seq(|frames|, i requires 0 <= i < |frames| => SampleOf(frames[i]))
  }

  /** The DTS of the first frame of any track in events[from..to]. */
  function FirstDts(events: seq<Event>, from: nat, to: nat): Option<nat>
    requires to <= |events|
    decreases if from < to then to - from else 0
  {
    if from >= to then None
    else if events[from].Push? then Some(events[from].frame.dts)
    else FirstDts(events, from + 1, to)
  }

  /** The track's timescale after the first n events: of the last configuration set, or the default. */
  function TimescaleAt(events: seq<Event>, n: nat, track: TrackKind): Timescale
    requires n <= |events|
  {
    if n == 0 then (if track == Video then 90000 else 48000)
    else
      match events[n - 1]
      case SetVideoConfig(c) => if track == Video then c.timescale else TimescaleAt(events, n - 1, track)
      case SetAudioConfig(c) => if track == Audio then c.timescale else TimescaleAt(events, n - 1, track)
      case Push(_) => TimescaleAt(events, n - 1, track)
  }

  /** Times are 64-bit numbers, in whatever order. */
  predicate Stamped(events: seq<Event>) {
    forall i | 0 <= i < |events| && events[i].Push? :: events[i].frame.dts < U64_LIMIT
  }

  /** The ticks from one time to another; a time that went back counts as one beyond the 64-bit wrap. */
  function Passed(from: nat, to: nat): int {
    if from <= to then to - from else to - from + U64_LIMIT
  }

  lemma {:induction false} FramesBefore(events: seq<Event>, e: Event, from: nat, to: nat, track: TrackKind)
    requires from <= to <= |events|
    ensures FramesOf(events + [e], from, to, track) == FramesOf(events, from, to, track)
  {
    if from < to { FramesBefore(events, e, from, to - 1, track); }
  }

  lemma {:induction false} FirstBefore(events: seq<Event>, e: Event, from: nat, to: nat)
    requires to <= |events|
    ensures FirstDts(events + [e], from, to) == FirstDts(events, from, to)
    decreases if from < to then to - from else 0
  {
    if from < to { FirstBefore(events, e, from + 1, to); }
  }

  lemma {:induction false} TimescaleBefore(events: seq<Event>, e: Event, n: nat, track: TrackKind)
    requires n <= |events|
    ensures TimescaleAt(events + [e], n, track) == TimescaleAt(events, n, track)
  {
    if n > 0 { TimescaleBefore(events, e, n - 1, track); }
  }

  lemma {:induction false} FirstSnoc(events: seq<Event>, from: nat, n: nat)
    requires from <= n < |events|
    ensures FirstDts(events, from, n + 1)
         == if FirstDts(events, from, n).Some? then FirstDts(events, from, n)
            else if events[n].Push? then Some(events[n].frame.dts) else None
    decreases n - from
  {
    if from < n && !events[from].Push? { FirstSnoc(events, from + 1, n); }
  }

  // ------------------------------------------------------------------------------------------
  // What a buffer holds.

  /** Everything pushed from event `from` on, its clock started by the first frame from `since` on. */
  ghost predicate Holds(b: Buffer, events: seq<Event>, from: nat, since: nat) {
    && from <= |events|
    && var v, a := FramesOf(events, from, |events|, Video), FramesOf(events, from, |events|, Audio);
       && b.video == Samples(v) && (v != [] ==> b.videoBase == v[0].dts)
       && b.audio == Samples(a) && (a != [] ==> b.audioBase == a[0].dts)
       && b.start == FirstDts(events, since, |events|)
  }

  /** The event that closed the last segment, or 0. */
  function Opened(t: Trace): nat {
    if t.cuts == [] then 0 else t.cuts[|t.cuts| - 1].at
  }

  /** The event that cut the last part, or 0. */
  function PartOpened(t: Trace): nat {
    if t.openParts != [] then t.openParts[|t.openParts| - 1].at
    else if t.cuts != [] && t.cuts[|t.cuts| - 1].parts != []
    then var parts := t.cuts[|t.cuts| - 1].parts; parts[|parts| - 1].at
    else 0
  }

  predicate PartsCut(t: Trace) {
    t.openParts != [] || (t.cuts != [] && t.cuts[|t.cuts| - 1].parts != [])
  }

  /** The clock starts with the first frame after the cutting one. */
  function Since(t: Trace): nat { if t.cuts == [] then 0 else Opened(t) + 1 }

  function PartSince(t: Trace): nat { if PartsCut(t) then PartOpened(t) + 1 else 0 }

  ghost predicate Clocked(t: Trace, events: seq<Event>) {
    && t.seen == |events| && t.state.segmentParts == []
    && Holds(t.state.current, events, Opened(t), Since(t))
    && Holds(t.state.part, events, PartOpened(t), PartSince(t))
    && TimescaleOf(t.state, Video) == TimescaleAt(events, |events|, Video)
    && TimescaleOf(t.state, Audio) == TimescaleAt(events, |events|, Audio)
  }

  lemma {:induction false} SamplesSnoc(frames: seq<Frame>, f: Frame)
    ensures Samples(frames + [f]) == Samples(frames) + [SampleOf(f)]
  {
  }

  /** A buffer that is not cut takes the frame. */
  lemma {:induction false} Accumulates(b: Buffer, events: seq<Event>, from: nat, since: nat, f: Frame)
    requires Holds(b, events, from, since) && since <= |events|
    ensures Holds(Accumulate(MarkStart(b, f.dts), f), events + [Push(f)], from, since)
  {
    var all := events + [Push(f)];
    FramesBefore(events, Push(f), from, |events|, Video);
    FramesBefore(events, Push(f), from, |events|, Audio);
    FirstBefore(events, Push(f), since, |events|);
    FirstSnoc(all, since, |events|);
    var kept := FramesOf(events, from, |events|, f.track);
    SamplesSnoc(kept, f);
    assert FramesOf(all, from, |all|, f.track) == kept + [f];
    var other := if f.track == Video then Audio else Video;
    assert FramesOf(all, from, |all|, other) == FramesOf(events, from, |events|, other) + [];
  }

  /** A buffer just emptied holds the cutting frame alone, and its clock is not running. */
  lemma {:induction false} StartsAfresh(b: Buffer, events: seq<Event>, f: Frame)
    requires b.video == [] && b.audio == [] && b.start == None
    ensures Holds(Accumulate(b, f), events + [Push(f)], |events|, |events| + 1)
  {
    var all, n := events + [Push(f)], |events|;
    assert FramesOf(all, n, n, Video) == [] && FramesOf(all, n, n, Audio) == [];
    assert FramesOf(all, n, n + 1, f.track) == [] + [f];
    SamplesSnoc([], f);
    assert Samples([]) == [];
  }

  lemma {:induction false} OtherEvent(b: Buffer, events: seq<Event>, from: nat, since: nat, e: Event)
    requires Holds(b, events, from, since) && since <= |events| && !e.Push?
    ensures Holds(b, events + [e], from, since)
  {
    var all := events + [e];
    FramesBefore(events, e, from, |events|, Video);
    FramesBefore(events, e, from, |events|, Audio);
    FirstBefore(events, e, since, |events|);
    FirstSnoc(all, since, |events|);
    var v, a := FramesOf(events, from, |events|, Video), FramesOf(events, from, |events|, Audio);
    assert FramesOf(all, from, |all|, Video) == v + [] == v && FramesOf(all, from, |all|, Audio) == a + [] == a;
  }

  // ------------------------------------------------------------------------------------------
  // One frame.

  function Drained(b: Buffer): Buffer { b.(video := [], audio := [], start := None) }

  function ClockOf(b: Buffer, dts: nat): nat {
    if b.start.Some? then b.start.value else dts
  }

  /** A part was cut: on its own, or with the segment. */
  predicate CutsPart(o: Output) {
    o.parts != [] || (o.segment.Some? && o.segment.value.parts != [])
  }

  lemma {:induction false} PushBuffers(s: State, f: Frame)
    requires s.segmentParts == []
    ensures var (s1, o) := PushFrame(s, f);
      && s1.current == (if o.segment.Some? then Accumulate(Drained(s.current), f)
                        else Accumulate(MarkStart(s.current, f.dts), f))
      && s1.part == (if CutsPart(o) then Accumulate(Drained(s.part), f) else Accumulate(MarkStart(s.part, f.dts), f))
  {
    hide Elapsed, Tracks, TotalDuration, Accumulate, TimedAll;
    var timescale := TimescaleOf(s, f.track);
    var b := Begin(s, f.dts).0;
    if SegmentDue(b, f, timescale) {
      TrailingCut(b, timescale);
      assert !PartDue(CutSegment(b, timescale).0, f, timescale);
    }
  }

  lemma {:induction false} TrailingCut(s: State, timescale: Timescale)
    requires s.segmentParts == []
    ensures var (s1, g) := CutSegment(s, timescale);
      && s1.current == Drained(s.current) && s1.settings == s.settings
      && (if s.settings.llHls && s.part.video != [] then g.parts != [] && s1.part == Drained(s.part)
          else g.parts == [] && s1.part == s.part)
      && (s.settings.llHls ==> s1.part.video == [])
  {
    hide Tracks, TotalDuration, TimedAll;
  }

  /** What decides. */
  lemma {:induction false} PushDecides(s: State, f: Frame)
    requires s.segmentParts == []
    ensures var o, timescale := PushFrame(s, f).1, TimescaleOf(s, f.track);
      && (o.segment.Some? <==>
            && f.track == Video && f.isKeyframe && s.current.video != []
            && Elapsed(f.dts, ClockOf(s.current, f.dts), timescale, s.settings.segmentDuration))
      && (o.segment.None? ==>
            (o.parts != [] <==>
               && s.settings.llHls && s.part.video != []
               && Elapsed(f.dts, ClockOf(s.part, f.dts), timescale, s.settings.partDuration)))
      && (o.segment.Some? ==>
            o.parts == [] && (o.segment.value.parts != [] <==> s.settings.llHls && s.part.video != []))
  {
    hide Elapsed, Tracks, TotalDuration, Accumulate, TimedAll;
    var timescale := TimescaleOf(s, f.track);
    var b := Begin(s, f.dts).0;
    if SegmentDue(b, f, timescale) {
      TrailingCut(b, timescale);
      assert !PartDue(CutSegment(b, timescale).0, f, timescale);
    }
  }

  lemma {:induction false} EveryRunIsClocked(settings: Settings, events: seq<Event>)
    ensures Clocked(Run(settings, events), events)
  {
    hide Clocked, Observe, PartsConserved;
    if events == [] {
      NothingHeld(settings);
    } else {
      var front, e := events[..|events| - 1], events[|events| - 1];
      assert events == front + [e];
      EveryRunSplitsIntoParts(settings, front);
      EveryRunIsClocked(settings, front);
      EveryRunDates(settings, front);
      ObserveClocks(Run(settings, front), front, e);
    }
  }

  lemma {:induction false} NothingHeld(settings: Settings)
    ensures Clocked(Run(settings, []), [])
  {
  }

  /** Cuts are dated by the event that made them. */
  ghost predicate Dated(t: Trace) {
    && (t.cuts != [] ==> Opened(t) < t.seen) && (PartsCut(t) ==> PartOpened(t) < t.seen)
  }

  lemma {:induction false} EveryRunDates(settings: Settings, events: seq<Event>)
    ensures Dated(Run(settings, events)) && Run(settings, events).seen == |events|
  {
    hide Observe, PartsConserved;
    if events != [] {
      var front := events[..|events| - 1];
      EveryRunDates(settings, front);
      EveryRunSplitsIntoParts(settings, front);
      ObserveDates(Run(settings, front), events[|front|]);
    }
  }

  lemma {:induction false} ObserveDates(t: Trace, e: Event)
    requires Dated(t) && PartsConserved(t)
    ensures var t1, o := Observe(t, e), Step(t.state, e).1;
      && Dated(t1) && t1.seen == t.seen + 1
      && Opened(t1) == (if o.segment.Some? then t.seen else Opened(t))
      && (t1.cuts != [] <==> t.cuts != [] || o.segment.Some?)
      && (PartsCut(t1) <==> PartsCut(t) || CutsPart(o))
      && PartOpened(t1) == (if CutsPart(o) then t.seen else PartOpened(t))
  {
    hide PushFrame, Observe, PartsConserved, WellCut, TrailingPart, Dated, Opened, PartOpened, PartsCut, PartCuts,
         CutOf;
    var t1, o := Observe(t, e), Step(t.state, e).1;
    ObservedParts(t, e);
    NoSegmentParts(t);
    if e.Push? { PushFacts(t.state, e.frame); }
    if o.segment.Some? {
      var parts := t.openParts + PartCuts(o.segment.value.parts, t.state, t.seen);
      ClosingDates(t, e.frame, o.segment.value);
      CutDates(t, t1, o.segment.value, parts);
    } else {
      PartDates(t, t1, o.parts);
    }
  }

  lemma {:induction false} ObservedParts(t: Trace, e: Event)
    ensures var t1, o := Observe(t, e), Step(t.state, e).1;
      && t1.seen == t.seen + 1
      && (if o.segment.None? then t1.cuts == t.cuts && t1.openParts == t.openParts + PartCuts(o.parts, t.state, t.seen)
          else && t1.openParts == []
               && (o.parts == [] ==>
                     var parts := t.openParts + PartCuts(o.segment.value.parts, t.state, t.seen);
                     t1.cuts == t.cuts + [CutOf(t, o.segment.value, parts)]))
  {
    hide PushFrame, CutOf;
    assert PartCuts([], t.state, t.seen) == [] && t.openParts + [] == t.openParts;
  }

  lemma {:induction false} NoSegmentParts(t: Trace)
    requires PartsConserved(t)
    ensures t.state.segmentParts == []
  {
  }

  lemma {:induction false} PartDates(t: Trace, t1: Trace, parts: seq<Part>)
    requires Dated(t) && t1.cuts == t.cuts && t1.seen == t.seen + 1
    requires t1.openParts == t.openParts + PartCuts(parts, t.state, t.seen)
    ensures Dated(t1) && Opened(t1) == Opened(t)
    ensures PartsCut(t1) <==> PartsCut(t) || parts != []
    ensures PartOpened(t1) == if parts != [] then t.seen else PartOpened(t)
  {
    if parts == [] { assert t1.openParts == t.openParts; }
  }

  lemma {:induction false} CutDates(t: Trace, t1: Trace, g: Segment, parts: seq<PartCut>)
    requires Dated(t) && t1.cuts == t.cuts + [CutOf(t, g, parts)] && t1.openParts == [] && t1.seen == t.seen + 1
    requires (parts != [] <==> t.state.settings.llHls) && (PartsCut(t) ==> t.state.settings.llHls)
    requires g.parts != [] ==> parts != [] && parts[|parts| - 1].at == t.seen
    requires g.parts == [] ==> parts == t.openParts
    ensures Dated(t1) && Opened(t1) == t.seen
    ensures PartsCut(t1) <==> PartsCut(t) || g.parts != []
    ensures PartOpened(t1) == if g.parts != [] then t.seen else PartOpened(t)
  {
  }

  /** With LL-HLS a segment has a part; without, none ever has. */
  lemma {:induction false} ClosingDates(t: Trace, f: Frame, g: Segment)
    requires PartsConserved(t) && t.state.current.video != []
    requires g.parts != [] <==> t.state.settings.llHls && t.state.part.video != []
    ensures var parts := t.openParts + PartCuts(g.parts, t.state, t.seen);
      && (parts != [] <==> t.state.settings.llHls) && (PartsCut(t) ==> t.state.settings.llHls)
      && (g.parts != [] ==> parts[|parts| - 1].at == t.seen)
      && (g.parts == [] ==> parts == t.openParts)
  {
    hide Numbered;
    if t.cuts != [] { assert t.cuts[|t.cuts| - 1] in t.cuts; }
  }

  lemma {:induction false} ObserveClocks(t: Trace, events: seq<Event>, e: Event)
    requires Clocked(t, events) && Dated(t) && PartsConserved(t)
    ensures Clocked(Observe(t, e), events + [e])
  {
    hide PushFrame, PartsConserved, Dated, Opened, PartOpened, PartsCut, Observe, Since, PartSince, Holds;
    ObserveDates(t, e);
    SinceSeen(t);
    var s, t1 := t.state, Observe(t, e);
    ObservedState(t, e);
    Timescales(s, events, e);
    match e {
      case Push(f) => PushClocks(t, t1, events, f);
      case _ => OtherClocks(t, t1, events, e);
    }
  }

  lemma {:induction false} SinceSeen(t: Trace)
    requires Dated(t)
    ensures Since(t) <= t.seen && PartSince(t) <= t.seen
  {
    hide Opened, PartOpened, PartsCut;
  }

  lemma {:induction false} OtherClocks(t: Trace, t1: Trace, events: seq<Event>, e: Event)
    requires Clocked(t, events) && !e.Push? && t1.state == Step(t.state, e).0 && t1.seen == t.seen + 1
    requires t1.state.segmentParts == [] && Since(t) <= |events| && PartSince(t) <= |events|
    requires TimescaleOf(t1.state, Video) == TimescaleAt(events + [e], |events| + 1, Video)
    requires TimescaleOf(t1.state, Audio) == TimescaleAt(events + [e], |events| + 1, Audio)
    requires Opened(t1) == Opened(t) && PartOpened(t1) == PartOpened(t)
    requires (t1.cuts != [] <==> t.cuts != []) && (PartsCut(t1) <==> PartsCut(t))
    ensures Clocked(t1, events + [e])
  {
    hide Holds, Opened, PartOpened, PartsCut, TimescaleAt, TimescaleOf;
    OtherEvent(t.state.current, events, Opened(t), Since(t), e);
    OtherEvent(t.state.part, events, PartOpened(t), PartSince(t), e);
  }

  lemma {:induction false} Timescales(s: State, events: seq<Event>, e: Event)
    requires s.segmentParts == []
    requires TimescaleOf(s, Video) == TimescaleAt(events, |events|, Video)
    requires TimescaleOf(s, Audio) == TimescaleAt(events, |events|, Audio)
    ensures var s1, all := Step(s, e).0, events + [e];
      && s1.segmentParts == []
      && TimescaleOf(s1, Video) == TimescaleAt(all, |all|, Video)
      && TimescaleOf(s1, Audio) == TimescaleAt(all, |all|, Audio)
  {
    hide PushFrame, WellCut, TrailingPart;
    assert (events + [e])[|events|] == e;
    TimescaleBefore(events, e, |events|, Video);
    TimescaleBefore(events, e, |events|, Audio);
    if e.Push? { PushFacts(s, e.frame); }
  }

  lemma {:induction false} PushClocks(t: Trace, t1: Trace, events: seq<Event>, f: Frame)
    requires Clocked(t, events) && t1.state == PushFrame(t.state, f).0 && t1.seen == t.seen + 1
    requires t1.state.segmentParts == [] && Since(t) <= |events| && PartSince(t) <= |events|
    requires TimescaleOf(t1.state, Video) == TimescaleAt(events + [Push(f)], |events| + 1, Video)
    requires TimescaleOf(t1.state, Audio) == TimescaleAt(events + [Push(f)], |events| + 1, Audio)
    requires var o := PushFrame(t.state, f).1;
      && Opened(t1) == (if o.segment.Some? then t.seen else Opened(t))
      && (t1.cuts != [] <==> t.cuts != [] || o.segment.Some?)
      && (PartsCut(t1) <==> PartsCut(t) || CutsPart(o))
      && PartOpened(t1) == (if CutsPart(o) then t.seen else PartOpened(t))
    ensures Clocked(t1, events + [Push(f)])
  {
    hide PushFrame, Holds, Opened, PartOpened, PartsCut, CutsPart, TimescaleAt, TimescaleOf, Accumulate;
    var s := t.state;
    PushBuffers(s, f);
    Accumulates(s.current, events, Opened(t), Since(t), f);
    Accumulates(s.part, events, PartOpened(t), PartSince(t), f);
    StartsAfresh(Drained(s.current), events, f);
    StartsAfresh(Drained(s.part), events, f);
  }

  lemma {:induction false} ObservedState(t: Trace, e: Event)
    ensures Observe(t, e).state == Step(t.state, e).0
  {
    hide PushFrame;
  }

  // ------------------------------------------------------------------------------------------
  // When a segment and when a part is cut.

  lemma {:induction false} FirstOfAll(events: seq<Event>, f: Frame, since: nat)
    requires Stamped(events + [Push(f)]) && since <= |events|
    ensures var all := events + [Push(f)];
      var first := FirstDts(all, since, |all|);
      && first.Some? && first.value < U64_LIMIT && f.dts < U64_LIMIT
      && first == Some(if FirstDts(events, since, |events|).Some? then FirstDts(events, since, |events|).value
                       else f.dts)
    decreases |events| - since
  {
    var all := events + [Push(f)];
    assert all[|events|] == Push(f);
    FirstBefore(events, Push(f), since, |events|);
    FirstSnoc(all, since, |events|);
    if since < |events| {
      if events[since].Push? {
        assert all[since] == events[since];
      } else {
        FirstOfAll(events, f, since + 1);
      }
    }
  }

  lemma {:induction false} ElapsedIsPassed(dts: nat, start: nat, timescale: Timescale, duration: real)
    requires start < U64_LIMIT && dts < U64_LIMIT
    ensures Elapsed(dts, start, timescale, duration) <==> Passed(start, dts) as real >= duration * timescale as real
  {
    var x, ts := Passed(start, dts) as real, timescale as real;
    assert (dts - start) % U64_LIMIT == Passed(start, dts);
    assert x / ts * ts == x;
    if x / ts >= duration { Scales(duration, x / ts, ts); }
    if x >= duration * ts && x / ts < duration { ScalesStrictly(x / ts, duration, ts); }
  }

  lemma {:induction false} Scales(a: real, b: real, c: real)
    requires a <= b && c > 0.0
    ensures a * c <= b * c
  {
  }

  lemma {:induction false} ScalesStrictly(a: real, b: real, c: real)
    requires a < b && c > 0.0
    ensures a * c < b * c
  {
  }

  lemma {:induction false} RunSnoc(settings: Settings, events: seq<Event>, e: Event)
    ensures Run(settings, events + [e]) == Observe(Run(settings, events), e)
  {
    hide Observe;
    assert (events + [e])[..|events|] == events;
  }

  /** Enough time, in ticks of the frame's track, since the clock started. */
  ghost predicate LongEnough(events: seq<Event>, f: Frame, since: nat, duration: real)
    requires since <= |events|
  {
    var all := events + [Push(f)];
    var first := FirstDts(all, since, |all|);
    first.Some? && Passed(first.value, f.dts) as real >= duration * TimescaleAt(events, |events|, f.track) as real
  }

  lemma {:induction false} ClockRuns(b: Buffer, events: seq<Event>, from: nat, since: nat, f: Frame,
                                    timescale: Timescale, duration: real)
    requires Holds(b, events, from, since) && since <= |events| && Stamped(events + [Push(f)])
    requires timescale == TimescaleAt(events, |events|, f.track)
    ensures Elapsed(f.dts, ClockOf(b, f.dts), timescale, duration) <==> LongEnough(events, f, since, duration)
    ensures b.video != [] <==> FramesOf(events, from, |events|, Video) != []
  {
    hide Elapsed, Stamped, FramesOf, FirstDts, TimescaleAt;
    FirstOfAll(events, f, since);
    ElapsedIsPassed(f.dts, ClockOf(b, f.dts), timescale, duration);
  }

  /**
   In every run, a frame closes the segment if and only if it is a video key frame, video was pushed
   since the frame that closed the segment before (or by it), and the segment's duration has passed
   since the first frame after that one, counted modulo 2^64.
   */
  lemma {:induction false} SegmentClosesIff(settings: Settings, events: seq<Event>, f: Frame)
    requires Stamped(events + [Push(f)])
    ensures var t, t1 := Run(settings, events), Run(settings, events + [Push(f)]);
      && Opened(t) <= |events| && Since(t) <= |events|
      && (t1.cuts != t.cuts <==>
            && f.track == Video && f.isKeyframe && FramesOf(events, Opened(t), |events|, Video) != []
            && LongEnough(events, f, Since(t), settings.segmentDuration))
      && (t1.cuts == t.cuts || (|t1.cuts| == |t.cuts| + 1 && t1.cuts[..|t.cuts|] == t.cuts && Opened(t1) == |events|))
  {
    var t := Run(settings, events);
    Ready(settings, events, f);
    PushDecides(t.state, f);
    hide Run, PushFrame, Elapsed, LongEnough, Stamped, FramesOf;
    ClockRuns(t.state.current, events, Opened(t), Since(t), f, TimescaleOf(t.state, f.track), settings.segmentDuration);
    CutsGrow(t, f);
  }

  lemma {:induction false} Ready(settings: Settings, events: seq<Event>, f: Frame)
    ensures var t := Run(settings, events);
      && Clocked(t, events) && Dated(t) && PartsConserved(t) && t.state.settings == settings
      && Since(t) <= |events| && PartSince(t) <= |events| && t.seen == |events|
      && Run(settings, events + [Push(f)]) == Observe(t, Push(f))
  {
    hide Run, Clocked, PartsConserved, Observe;
    EveryRunIsClocked(settings, events);
    EveryRunDates(settings, events);
    EveryRunSplitsIntoParts(settings, events);
    RunSnoc(settings, events, Push(f));
  }

  lemma {:induction false} CutsGrow(t: Trace, f: Frame)
    ensures var t1, o := Observe(t, Push(f)), PushFrame(t.state, f).1;
      if o.segment.Some?
      then |t1.cuts| == |t.cuts| + 1 && t1.cuts[..|t.cuts|] == t.cuts && Opened(t1) == t.seen
      else t1.cuts == t.cuts
  {
    hide PushFrame;
  }

  /**
   With LL-HLS, a frame that closes no segment cuts a part if and only if video was pushed since the
   frame that cut the part before (or by it), and the part's duration has passed since the first
   frame after that one.
   */
  lemma {:induction false} PartClosesIff(settings: Settings, events: seq<Event>, f: Frame)
    requires Stamped(events + [Push(f)])
    requires Run(settings, events + [Push(f)]).cuts == Run(settings, events).cuts
    ensures var t, t1 := Run(settings, events), Run(settings, events + [Push(f)]);
      && PartOpened(t) <= |events| && PartSince(t) <= |events|
      && (t1.openParts != t.openParts <==>
            && settings.llHls && FramesOf(events, PartOpened(t), |events|, Video) != []
            && LongEnough(events, f, PartSince(t), settings.partDuration))
      && (t1.openParts == t.openParts
          || (|t1.openParts| == |t.openParts| + 1 && t1.openParts[..|t.openParts|] == t.openParts
              && PartOpened(t1) == |events|))
  {
    var t := Run(settings, events);
    Ready(settings, events, f);
    PushDecides(t.state, f);
    SegmentExcludesParts(t.state, f);
    hide Run, PushFrame, Elapsed, LongEnough, Stamped, FramesOf;
    ClockRuns(t.state.part, events, PartOpened(t), PartSince(t), f, TimescaleOf(t.state, f.track),
              settings.partDuration);
    CutsGrow(t, f);
    PartsGrow(t, f);
  }

  lemma {:induction false} PartsGrow(t: Trace, f: Frame)
    requires PushFrame(t.state, f).1.segment.None? && |PushFrame(t.state, f).1.parts| <= 1
    ensures var t1, o := Observe(t, Push(f)), PushFrame(t.state, f).1;
      if o.parts != []
      then |t1.openParts| == |t.openParts| + 1 && t1.openParts[..|t.openParts|] == t.openParts
           && PartOpened(t1) == t.seen
      else t1.openParts == t.openParts
  {
    hide PushFrame;
  }

  /** A frame that closes a segment cuts a last part of it if and only if video was pushed since the part before. */
  lemma {:induction false} TrailingPartIff(settings: Settings, events: seq<Event>, f: Frame)
    requires Run(settings, events + [Push(f)]).cuts != Run(settings, events).cuts
    ensures var t, t1 := Run(settings, events), Run(settings, events + [Push(f)]);
      && PartOpened(t) <= |events| && |t1.cuts| == |t.cuts| + 1 && t1.openParts == []
      && var parts := t1.cuts[|t.cuts|].parts;
         if settings.llHls && FramesOf(events, PartOpened(t), |events|, Video) != []
         then |parts| == |t.openParts| + 1 && parts[..|t.openParts|] == t.openParts && PartOpened(t1) == |events|
         else parts == t.openParts
  {
    var t := Run(settings, events);
    Ready(settings, events, f);
    PushDecides(t.state, f);
    PushFacts(t.state, f);
    hide Run, PushFrame, Elapsed, FramesOf;
    CutsGrow(t, f);
    SegmentParts(t, f);
  }

  lemma {:induction false} SegmentParts(t: Trace, f: Frame)
    requires PushFrame(t.state, f).1.segment.Some? && PushFrame(t.state, f).1.parts == []
    requires |PushFrame(t.state, f).1.segment.value.parts| <= 1
    ensures var t1, g := Observe(t, Push(f)), PushFrame(t.state, f).1.segment.value;
      && |t1.cuts| == |t.cuts| + 1 && t1.openParts == []
      && var parts := t1.cuts[|t.cuts|].parts;
         if g.parts != [] then |parts| == |t.openParts| + 1 && parts[..|t.openParts|] == t.openParts
                               && PartOpened(t1) == t.seen
         else parts == t.openParts
  {
    hide PushFrame;
    assert t.openParts + PartCuts([], t.state, t.seen) == t.openParts;
  }
}
