/**
 What every run of the segmenter keeps: no sample is lost, repeated or reordered between the
 frames pushed, the segments cut, and (LL-HLS) the parts cut, and when the bytes handed out really
 carry those samples.
 */
module Conservation {
  import opened Wrappers
  import opened Segmenter

  datatype Event = SetVideoConfig(codec: Codec) | SetAudioConfig(codec: Codec) | Push(frame: Frame)

  function Step(s: State, e: Event): (State, Output) {
    match e
    case SetVideoConfig(c) => (s.(videoConfig := Some(c)), Output(None, [], None))
    case SetAudioConfig(c) => (s.(audioConfig := Some(c)), Output(None, [], None))
    case Push(f) => PushFrame(s, f)
  }

  /**
   A cut segment with what the buffers held at the cut, the audio its cut leaves in the part buffer,
   and the number of events before it.
   */
  datatype Cut = Cut(
    segment: Segment, video: seq<Sample>, audio: seq<Sample>, parts: seq<PartCut>, left: seq<Sample>, at: nat)

  datatype PartCut = PartCut(part: Part, video: seq<Sample>, audio: seq<Sample>, at: nat)

  /** A run observed from outside: frames in, cuts out, in order. */
  datatype Trace = Trace(
    seen: nat,
    state: State,
    pushedVideo: seq<Sample>,
    pushedAudio: seq<Sample>,
    cuts: seq<Cut>,
    openParts: seq<PartCut>)

  function VideoSample(e: Event): seq<Sample> {
    if e.Push? && e.frame.track == Video then [SampleOf(e.frame)] else []
  }

  function AudioSample(e: Event): seq<Sample> {
    if e.Push? && e.frame.track == Audio then [SampleOf(e.frame)] else []
  }

  /** The part a step emits, outside or inside a segment, with the samples buffered for it. */
  function PartCuts(parts: seq<Part>, before: State, at: nat): seq<PartCut> {
    seq(|parts|, i requires 0 <= i < |parts| => PartCut(parts[i], before.part.video, before.part.audio, at))
  }

  function Observe(t: Trace, e: Event): Trace {
    var (s, o) := Step(t.state, e);
    var open := t.openParts + PartCuts(o.parts, t.state, t.seen);
    var t1 := t.(seen := t.seen + 1, state := s, pushedVideo := t.pushedVideo + VideoSample(e),
                 pushedAudio := t.pushedAudio + AudioSample(e), openParts := open);
    match o.segment
    case None => t1
    case Some(seg) =>
      t1.(openParts := [],
          cuts := t.cuts + [CutOf(t, seg, open + PartCuts(seg.parts, t.state, t.seen))])
  }

  /** Without buffered video there is no trailing part to take the buffered audio. */
  function CutOf(t: Trace, g: Segment, parts: seq<PartCut>): Cut {
    var s := t.state;
    Cut(g, s.current.video, s.current.audio, parts, if s.part.video == [] then s.part.audio else [], t.seen)
  }

  function Run(settings: Settings, events: seq<Event>): Trace {
    if events == [] then Trace(0, New(settings), [], [], [], [])
    else Observe(Run(settings, events[..|events| - 1]), events[|events| - 1])
  }

  // ------------------------------------------------------------------------------------------
  // Concatenation of the samples of several cuts.

  /** Track 1 is video and track 2 is audio, the packager's numbering. */
  function HeldBy(c: Cut, id: nat): seq<Sample> {
    if id == 1 then c.video else c.audio
  }

  function Held(cuts: seq<Cut>, id: nat): seq<Sample> {
    if cuts == [] then [] else Held(cuts[..|cuts| - 1], id) + HeldBy(cuts[|cuts| - 1], id)
  }

  function Pending(t: Trace, id: nat): seq<Sample> {
    if id == 1 then t.state.current.video else t.state.current.audio
  }

  function Pushed(t: Trace, id: nat): seq<Sample> {
    if id == 1 then t.pushedVideo else t.pushedAudio
  }

  function PartVideoOf(parts: seq<PartCut>): seq<Sample> {
    if parts == [] then [] else PartVideoOf(parts[..|parts| - 1]) + parts[|parts| - 1].video
  }

  predicate HasTrack(m: Media, id: nat) {
    m.Fragment? && exists t :: t in m.tracks && t.trackId == id
  }

  /** The samples a player finds in a track of these bytes; none if the track is absent. */
  function SamplesIn(m: Media, id: nat): seq<Sample> {
    if m.Fragment? then SamplesInTracks(m.tracks, id) else []
  }

  function SamplesInTracks(tracks: seq<TrackData>, id: nat): seq<Sample> {
    if tracks == [] then []
    else (if tracks[0].trackId == id then tracks[0].samples else []) + SamplesInTracks(tracks[1..], id)
  }

  /** Everything a player finds in the segments' bytes for one track, in order. */
  function Carried(cuts: seq<Cut>, id: nat): seq<Sample> {
    if cuts == [] then []
    else Carried(cuts[..|cuts| - 1], id) + SamplesIn(cuts[|cuts| - 1].segment.data, id)
  }

  function CarriedByParts(parts: seq<PartCut>, id: nat): seq<Sample> {
    if parts == [] then []
    else CarriedByParts(parts[..|parts| - 1], id) + SamplesIn(parts[|parts| - 1].part.data, id)
  }

  // ------------------------------------------------------------------------------------------
  // One step.

  /** Bytes built from a buffer carry exactly its samples, per configured track. */
  lemma {:induction false} PackedSamples(videoConfig: Option<Codec>, audioConfig: Option<Codec>, b: Buffer,
                                         sequence: nat)
    ensures var m := Fragment(sequence, Tracks(videoConfig, audioConfig, b));
      && HasTrack(m, 1) == videoConfig.Some? && HasTrack(m, 2) == audioConfig.Some?
      && SamplesIn(m, 1) == (if videoConfig.Some? then b.video else [])
      && SamplesIn(m, 2) == (if audioConfig.Some? then b.audio else [])
  {
    var m := Fragment(sequence, Tracks(videoConfig, audioConfig, b));
    var v, a := TrackData(1, b.videoBase, b.video), TrackData(2, b.audioBase, b.audio);
    OneTrack(v);
    OneTrack(a);
    if videoConfig.Some? {
      assert m.tracks[0] == v;
      if audioConfig.Some? {
        assert m.tracks == [v, a] && m.tracks[1] == a && m.tracks[1..] == [a];
        assert SamplesInTracks(m.tracks, 1) == v.samples + SamplesInTracks([a], 1);
        assert SamplesInTracks(m.tracks, 2) == [] + SamplesInTracks([a], 2);
      } else {
        assert m.tracks == [v];
      }
    } else if audioConfig.Some? {
      assert m.tracks == [a] && m.tracks[0] == a;
    }
  }

  lemma {:induction false} OneTrack(t: TrackData)
    ensures forall id: nat :: SamplesInTracks([t], id) == if t.trackId == id then t.samples else []
  {
  }

  ghost predicate WellCutPart(part: Part, video: seq<Sample>, audio: seq<Sample>) {
    && video != []
    && SamplesIn(part.data, 1) == (if HasTrack(part.data, 1) then TimedAll(video) else [])
    && SamplesIn(part.data, 2) == (if HasTrack(part.data, 2) then TimedAll(audio) else [])
    && part.independent == video[0].isSync
  }

  lemma {:induction false} CutPartFacts(s: State, timescale: Timescale)
    requires s.part.video != []
    ensures var (s1, p) := CutPart(s, timescale);
      && p.Some? && p.value.index == s.partIndex && WellCutPart(p.value, s.part.video, s.part.audio)
      && HasTrack(p.value.data, 1) == s.videoConfig.Some? && HasTrack(p.value.data, 2) == s.audioConfig.Some?
      && s1 == s.(partIndex := s.partIndex + 1, part := s1.part)
      && s1.part.video == [] && s1.part.audio == []
  {
    hide Tracks, HasTrack, SamplesIn, TotalDuration;
    PackedSamples(s.videoConfig, s.audioConfig, TimedBuffer(s.part),
                  (s.nextSequence * 1000 + s.partIndex + 1) % Decimal.U32_LIMIT);
  }

  /** A part cut now. */
  ghost predicate TrailingPart(s: State, part: Part) {
    && part.index == s.partIndex && WellCutPart(part, s.part.video, s.part.audio)
    && HasTrack(part.data, 1) == s.videoConfig.Some? && HasTrack(part.data, 2) == s.audioConfig.Some?
  }

  ghost predicate WellCut(g: Segment, video: seq<Sample>, audio: seq<Sample>) {
    && video != []
    && g.independent == video[0].isSync
    && SamplesIn(g.data, 1) == (if HasTrack(g.data, 1) then TimedAll(video) else [])
    && SamplesIn(g.data, 2) == (if HasTrack(g.data, 2) then TimedAll(audio) else [])
  }

  lemma {:induction false} CutSegmentFacts(s: State, timescale: Timescale)
    requires s.current.video != [] && s.segmentParts == []
    ensures var (s1, g) := CutSegment(s, timescale);
      && g.sequence == s.nextSequence && WellCut(g, s.current.video, s.current.audio)
      && HasTrack(g.data, 1) == s.videoConfig.Some? && HasTrack(g.data, 2) == s.audioConfig.Some?
      && s1.nextSequence == s.nextSequence + 1 && s1.current.video == [] && s1.current.audio == []
      && s1.partIndex == 0 && s1.segmentParts == [] && s1.settings == s.settings
      && s1.videoConfig == s.videoConfig && s1.audioConfig == s.audioConfig
      && (if s.settings.llHls && s.part.video != []
          then |g.parts| == 1 && TrailingPart(s, g.parts[0]) && s1.part.video == [] && s1.part.audio == []
          else g.parts == [] && s1.part.video == s.part.video && s1.part.audio == s.part.audio)
  {
    hide CutPart, Tracks, SamplesIn, HasTrack, TotalDuration;
    var s0 := s.(current := TimedBuffer(s.current));
    if s.settings.llHls && s.part.video != [] {
      CutPartFacts(s0, timescale);
    }
    PackedSamples(s.videoConfig, s.audioConfig, s0.current, s.nextSequence % Decimal.U32_LIMIT);
  }

  ghost predicate Closes(s: State, f: Frame, s1: State, g: Segment) {
    && f.track == Video && f.isKeyframe && s.current.video != []
    && g.sequence == s.nextSequence && WellCut(g, s.current.video, s.current.audio)
    && HasTrack(g.data, 1) == s.videoConfig.Some? && HasTrack(g.data, 2) == s.audioConfig.Some?
    && s1.nextSequence == s.nextSequence + 1 && s1.partIndex == 0
    && s1.current.video == [SampleOf(f)] && s1.current.audio == []
    && (s.settings.llHls ==> s1.part.video == [SampleOf(f)])
    && (if s.settings.llHls && s.part.video != []
        then |g.parts| == 1 && TrailingPart(s, g.parts[0]) && s1.part.audio == []
        else g.parts == [] && s1.part.audio == s.part.audio)
  }

  ghost predicate Continues(s: State, f: Frame, s1: State, parts: seq<Part>) {
    && s1.nextSequence == s.nextSequence
    && s1.current.video == s.current.video + VideoSample(Push(f))
    && s1.current.audio == s.current.audio + AudioSample(Push(f))
    && s1.partIndex == s.partIndex + |parts|
    && (if parts == []
        then s1.part.video == s.part.video + VideoSample(Push(f))
             && s1.part.audio == s.part.audio + AudioSample(Push(f))
        else s.settings.llHls && |parts| == 1 && s.part.video != [] && TrailingPart(s, parts[0])
             && s1.part.video == VideoSample(Push(f)) && s1.part.audio == AudioSample(Push(f)))
  }

  ghost predicate PushShape(s: State, f: Frame) {
    var (s1, o) := PushFrame(s, f);
    && s1.segmentParts == [] && s1.settings == s.settings
    && s1.videoConfig == s.videoConfig && s1.audioConfig == s.audioConfig
    && s1.initBuilt == (s.initBuilt || s.videoConfig.Some?)
    && o.init == (if s.videoConfig.Some? && !s.initBuilt then Some(Init(s.videoConfig.value, s.audioConfig)) else None)
    && if o.segment.Some? then o.parts == [] && Closes(s, f, s1, o.segment.value)
       else Continues(s, f, s1, o.parts)
  }

  /** What a frame does: it closes the segment, or it continues it, possibly closing one part. */
  lemma {:induction false} PushFacts(s: State, f: Frame)
    requires s.segmentParts == []
    ensures PushShape(s, f)
  {
    if SegmentDue(Begin(s, f.dts).0, f, TimescaleOf(s, f.track)) {
      ClosingPush(s, f);
    } else {
      ContinuingPush(s, f);
    }
  }

  lemma {:induction false} ClosingPush(s: State, f: Frame)
    requires s.segmentParts == []
    requires SegmentDue(Begin(s, f.dts).0, f, TimescaleOf(s, f.track))
    ensures PushShape(s, f)
  {
    var timescale := TimescaleOf(s, f.track);
    var (b, init) := Begin(s, f.dts);
    var (c, g) := CutSegment(b, timescale);
    CutSegmentFacts(b, timescale);
    assert CutIfDue(b, f, timescale) == (c, Some(g));
    assert !PartDue(c, f, timescale);
    var (s1, o) := PushFrame(s, f);
    assert o == Output(init, [], Some(g));
    assert s1 == c.(current := Accumulate(c.current, f), part := Accumulate(c.part, f));
  }

  lemma {:induction false} ContinuingPush(s: State, f: Frame)
    requires s.segmentParts == []
    requires !SegmentDue(Begin(s, f.dts).0, f, TimescaleOf(s, f.track))
    ensures PushShape(s, f)
  {
    var timescale := TimescaleOf(s, f.track);
    var (b, init) := Begin(s, f.dts);
    assert CutIfDue(b, f, timescale) == (b, None);
    var (s1, o) := PushFrame(s, f);
    if PartDue(b, f, timescale) {
      CutPartFacts(b, timescale);
      var (c, p) := CutPart(b, timescale);
      assert o == Output(init, [p.value], None);
      assert s1 == c.(current := Accumulate(c.current, f), part := Accumulate(c.part, f));
    } else {
      assert o == Output(init, [], None);
      assert s1 == b.(current := Accumulate(b.current, f), part := Accumulate(b.part, f));
    }
  }

  // ------------------------------------------------------------------------------------------
  // Every run.

  ghost predicate WellMade(c: Cut) { WellCut(c.segment, c.video, c.audio) }

  ghost predicate Conserved(t: Trace) {
    && t.state.segmentParts == []
    && (forall id | 1 <= id <= 2 :: Held(t.cuts, id) + Pending(t, id) == Pushed(t, id))
    && |t.cuts| == t.state.nextSequence
    && (forall i | 0 <= i < |t.cuts| :: t.cuts[i].segment.sequence == i && WellMade(t.cuts[i]))
    && (forall i | 0 < i < |t.cuts| :: t.cuts[i].video[0].isSync)
    && (t.cuts != [] ==> t.state.current.video != [] && t.state.current.video[0].isSync)
    && (forall x | x in t.pushedVideo || x in t.pushedAudio :: x.duration == 0)
  }

  lemma {:induction false} EveryRunConserves(settings: Settings, events: seq<Event>)
    ensures Conserved(Run(settings, events))
    ensures Run(settings, events).state.settings == settings
  {
    if events != [] {
      var t, e := Run(settings, events[..|events| - 1]), events[|events| - 1];
      EveryRunConserves(settings, events[..|events| - 1]);
      ObserveConserves(t, e);
    }
  }

  lemma {:induction false} ObserveConserves(t: Trace, e: Event)
    requires Conserved(t)
    ensures Conserved(Observe(t, e)) && Observe(t, e).state.settings == t.state.settings
  {
    hide PushFrame, WellCut, TrailingPart, HasTrack;
    if e.Push? {
      PushFacts(t.state, e.frame);
      if PushFrame(t.state, e.frame).1.segment.Some? {
        ClosingConserves(t, e.frame, Observe(t, e));
      } else {
        ContinuingConserves(t, e.frame, Observe(t, e));
      }
    }
  }

  ghost predicate Extends(t: Trace, f: Frame, t1: Trace) {
    && t1.state.segmentParts == []
    && t1.pushedVideo == t.pushedVideo + VideoSample(Push(f))
    && t1.pushedAudio == t.pushedAudio + AudioSample(Push(f))
  }

  lemma {:induction false} HeldSnoc(cuts: seq<Cut>, c: Cut, id: nat)
    ensures Held(cuts + [c], id) == Held(cuts, id) + HeldBy(c, id)
  {
    assert (cuts + [c])[..|cuts|] == cuts;
  }

  lemma {:induction false} ClosingConserves(t: Trace, f: Frame, t1: Trace)
    requires Conserved(t) && Extends(t, f, t1) && |t1.cuts| == |t.cuts| + 1
    requires var c := t1.cuts[|t.cuts|];
      t1.cuts == t.cuts + [c] && c.video == t.state.current.video && c.audio == t.state.current.audio
      && Closes(t.state, f, t1.state, c.segment)
    ensures Conserved(t1)
  {
    hide TrailingPart, HasTrack, SamplesIn, Held;
    var n := |t.cuts|;
    assert forall id | 1 <= id <= 2 :: Held(t.cuts, id) + Pending(t, id) == Pushed(t, id);
    HeldSnoc(t.cuts, t1.cuts[n], 1);
    HeldSnoc(t.cuts, t1.cuts[n], 2);
    forall id | 1 <= id <= 2 ensures Held(t1.cuts, id) + Pending(t1, id) == Pushed(t1, id) {
      assert Held(t1.cuts, id) == Pushed(t, id);
    }
    forall i | 0 <= i < |t1.cuts| ensures t1.cuts[i].segment.sequence == i && WellMade(t1.cuts[i]) {
      if i < n {
        assert t1.cuts[i] == t.cuts[i];
      }
    }
    forall i | 0 < i < |t1.cuts| ensures t1.cuts[i].video[0].isSync {
      if i < n { assert t1.cuts[i] == t.cuts[i]; }
    }
  }

  lemma {:induction false} ContinuingConserves(t: Trace, f: Frame, t1: Trace)
    requires Conserved(t) && Extends(t, f, t1) && t1.cuts == t.cuts
    requires t1.state.nextSequence == t.state.nextSequence
      && t1.state.current.video == t.state.current.video + VideoSample(Push(f))
      && t1.state.current.audio == t.state.current.audio + AudioSample(Push(f))
    ensures Conserved(t1)
  {
    hide WellCut, HasTrack, Held;
    Associative(Held(t.cuts, 1), t.state.current.video, VideoSample(Push(f)));
    Associative(Held(t.cuts, 2), t.state.current.audio, AudioSample(Push(f)));
    assert Held(t.cuts, 1) + Pending(t, 1) == Pushed(t, 1) && Held(t.cuts, 2) + Pending(t, 2) == Pushed(t, 2);
    forall id | 1 <= id <= 2 ensures Held(t1.cuts, id) + Pending(t1, id) == Pushed(t1, id) {}
    if t.cuts != [] { assert t1.state.current.video[0] == t.state.current.video[0]; }
  }

  /** The DTS of the frames plays no part in a segment's duration: it is 3000 ticks a sample. */
  lemma {:induction false} DurationCountsSamples(samples: seq<Sample>, timescale: Timescale)
    requires forall x | x in samples :: x.duration == 0
    ensures TotalDuration(TimedAll(samples), timescale)
         == |samples| as real * (DEFAULT_SAMPLE_DURATION as real / timescale as real)
  {
    if samples != [] {
      var n := |samples| - 1;
      DurationCountsSamples(samples[..n], timescale);
      assert TimedAll(samples)[..n] == TimedAll(samples[..n]);
      assert samples[n] in samples;
    }
  }

  // ------------------------------------------------------------------------------------------
  // Which cuts found a configuration.

  predicate SetsConfig(e: Event, id: nat) {
    if id == 1 then e.SetVideoConfig? else e.SetAudioConfig?
  }

  /** The track's configuration is set by one of the first n events. */
  ghost predicate Configured(events: seq<Event>, n: nat, id: nat)
    requires n <= |events|
  {
    exists i | 0 <= i < n :: SetsConfig(events[i], id)
  }

  function ConfigOf(s: State, id: nat): Option<Codec> {
    if id == 1 then s.videoConfig else s.audioConfig
  }

  lemma {:induction false} ConfiguredBefore(events: seq<Event>, n: nat, id: nat)
    requires events != [] && n < |events|
    ensures Configured(events, n, id) <==> Configured(events[..|events| - 1], n, id)
    ensures Configured(events, |events|, id)
       <==> Configured(events, |events| - 1, id) || SetsConfig(events[|events| - 1], id)
  {
    var front := events[..|events| - 1];
    if i :| 0 <= i < n && SetsConfig(events[i], id) { assert SetsConfig(front[i], id); }
  }

  lemma {:induction false} ConfigIsEvents(settings: Settings, events: seq<Event>, id: nat)
    requires 1 <= id <= 2
    ensures Run(settings, events).seen == |events|
    ensures ConfigOf(Run(settings, events).state, id).Some? <==> Configured(events, |events|, id)
  {
    hide PushFrame, Configured, Conserved, Observe;
    if events == [] {
      NothingConfigured(settings, id);
    } else {
      var front, e := events[..|events| - 1], events[|events| - 1];
      ConfigIsEvents(settings, front, id);
      ConfiguredBefore(events, |front|, id);
      EveryRunConserves(settings, front);
      ConfigStep(Run(settings, front), e, id);
    }
  }

  lemma {:induction false} NothingConfigured(settings: Settings, id: nat)
    requires 1 <= id <= 2
    ensures ConfigOf(Run(settings, []).state, id).None? && !Configured([], 0, id) && Run(settings, []).seen == 0
  {
  }

  lemma {:induction false} ConfigStep(t: Trace, e: Event, id: nat)
    requires 1 <= id <= 2 && Conserved(t)
    ensures Observe(t, e).seen == t.seen + 1
    ensures ConfigOf(Observe(t, e).state, id).Some? <==> ConfigOf(t.state, id).Some? || SetsConfig(e, id)
  {
    hide PushFrame;
    if e.Push? { PushFacts(t.state, e.frame); }
  }

  ghost predicate CutConfigured(events: seq<Event>, c: Cut, id: nat) {
    c.at < |events| && (HasTrack(c.segment.data, id) <==> Configured(events, c.at, id))
  }

  ghost predicate PartConfigured(events: seq<Event>, p: PartCut, id: nat) {
    p.at < |events| && (HasTrack(p.part.data, id) <==> Configured(events, p.at, id))
  }

  /** A cut made by this event is dated by it and has the tracks configured now. */
  ghost predicate DatedCut(t: Trace, c: Cut) {
    && c.at == t.seen && |t.openParts| <= |c.parts|
    && HasTrack(c.segment.data, 1) == t.state.videoConfig.Some?
    && HasTrack(c.segment.data, 2) == t.state.audioConfig.Some?
    && forall j | 0 <= j < |c.parts| ::
         if j < |t.openParts| then c.parts[j] == t.openParts[j]
         else
           && c.parts[j].at == t.seen && HasTrack(c.parts[j].part.data, 1) == t.state.videoConfig.Some?
           && HasTrack(c.parts[j].part.data, 2) == t.state.audioConfig.Some?
  }

  lemma {:induction false} EventCuts(t: Trace, e: Event)
    requires t.state.segmentParts == []
    ensures var t1 := Observe(t, e);
      || t1.cuts == t.cuts
      || (|t1.cuts| == |t.cuts| + 1 && t1.cuts[..|t.cuts|] == t.cuts && DatedCut(t, t1.cuts[|t.cuts|]))
  {
    hide PushFrame, HasTrack, WellCut, WellCutPart, Continues;
    if e.Push? && PushFrame(t.state, e.frame).1.segment.Some? {
      PushFacts(t.state, e.frame);
      var (s, o) := PushFrame(t.state, e.frame);
      var g := o.segment.value;
      assert t.openParts + PartCuts([], t.state, t.seen) == t.openParts;
      DateCut(t, e.frame, s, g);
    }
  }

  lemma {:induction false} DateCut(t: Trace, f: Frame, s: State, g: Segment)
    requires Closes(t.state, f, s, g)
    ensures DatedCut(t, CutOf(t, g, t.openParts + PartCuts(g.parts, t.state, t.seen)))
  {
    hide HasTrack, WellCut, WellCutPart;
  }

  /** A segment's bytes have a track exactly if its configuration was set before the closing frame. */
  lemma {:induction false} CutsFollowConfiguration(settings: Settings, events: seq<Event>, id: nat, k: nat)
    requires 1 <= id <= 2 && k < |Run(settings, events).cuts|
    ensures CutConfigured(events, Run(settings, events).cuts[k], id)
  {
    hide Observe, HasTrack;
    if events != [] {
      var front := events[..|events| - 1];
      var t, t1 := Run(settings, front), Run(settings, events);
      EveryRunConserves(settings, front);
      ConfigIsEvents(settings, front, id);
      EventCuts(t, events[|front|]);
      if k < |t.cuts| {
        CutsFollowConfiguration(settings, front, id, k);
        assert t1.cuts[..|t.cuts|][k] == t.cuts[k];
      }
      ConfiguredBefore(events, t1.cuts[k].at, id);
    }
  }

  /** The same of its parts; and none of them is later than the segment. */
  lemma {:induction false} PartsFollowConfiguration(settings: Settings, events: seq<Event>, id: nat, k: nat, j: nat)
    requires 1 <= id <= 2 && k < |Run(settings, events).cuts| && j < |Run(settings, events).cuts[k].parts|
    ensures var c := Run(settings, events).cuts[k]; PartConfigured(events, c.parts[j], id) && c.parts[j].at <= c.at
  {
    hide Observe, HasTrack;
    if events != [] {
      var front := events[..|events| - 1];
      var t, t1 := Run(settings, front), Run(settings, events);
      EveryRunConserves(settings, front);
      ConfigIsEvents(settings, front, id);
      EventCuts(t, events[|front|]);
      if k < |t.cuts| {
        assert t1.cuts[..|t.cuts|][k] == t.cuts[k];
        PartsFollowConfiguration(settings, front, id, k, j);
      } else if j < |t.openParts| {
        OpenPartsFollowConfiguration(settings, front, id, j);
      }
      ConfiguredBefore(events, t1.cuts[k].parts[j].at, id);
    }
  }

  lemma {:induction false} OpenPartsFollowConfiguration(settings: Settings, events: seq<Event>, id: nat, j: nat)
    requires 1 <= id <= 2 && j < |Run(settings, events).openParts|
    ensures PartConfigured(events, Run(settings, events).openParts[j], id)
  {
    hide PushFrame, HasTrack, WellCut, WellCutPart, Configured;
    if events != [] {
      var front, e := events[..|events| - 1], events[|events| - 1];
      var t, t1 := Run(settings, front), Run(settings, events);
      EveryRunConserves(settings, front);
      ConfigIsEvents(settings, front, id);
      if e.Push? { PushFacts(t.state, e.frame); }
      if j < |t.openParts| {
        OpenPartsFollowConfiguration(settings, front, id, j);
        assert t1.openParts[j] == t.openParts[j];
      }
      ConfiguredBefore(events, t1.openParts[j].at, id);
    }
  }

  // ------------------------------------------------------------------------------------------
  // When the bytes carry what was pushed.

  function Untimed(samples: seq<Sample>): (r: seq<Sample>)
    ensures |r| == |samples|
  {
    seq(|samples|, i requires 0 <= i < |samples| => samples[i].(duration := 0))
  }

  ghost predicate Complete(c: Cut, id: nat) {
    HasTrack(c.segment.data, id) || HeldBy(c, id) == []
  }

  lemma {:induction false} CarriedByOne(c: Cut, id: nat)
    requires 1 <= id <= 2 && WellMade(c)
    ensures SamplesIn(c.segment.data, id) == if HasTrack(c.segment.data, id) then TimedAll(HeldBy(c, id)) else []
  {
  }

  lemma {:induction false} CarriedLength(cuts: seq<Cut>, id: nat)
    requires 1 <= id <= 2 && forall c | c in cuts :: WellMade(c)
    ensures |Carried(cuts, id)| <= |Held(cuts, id)|
    ensures |Carried(cuts, id)| == |Held(cuts, id)| <==> forall c | c in cuts :: Complete(c, id)
  {
    hide WellMade, SamplesIn, HasTrack, HeldBy;
    if cuts != [] {
      var front, last := cuts[..|cuts| - 1], cuts[|cuts| - 1];
      CarriedLength(front, id);
      CarriedByOne(last, id);
      assert |SamplesIn(last.segment.data, id)| == |HeldBy(last, id)| <==> Complete(last, id);
      assert forall c :: c in cuts <==> c in front || c == last;
    }
  }

  lemma {:induction false} CarriedContents(cuts: seq<Cut>, id: nat)
    requires 1 <= id <= 2 && forall c | c in cuts :: WellMade(c) && Complete(c, id)
    requires forall x | x in Held(cuts, id) :: x.duration == 0
    ensures Untimed(Carried(cuts, id)) == Held(cuts, id)
  {
    if cuts != [] {
      var front, last := cuts[..|cuts| - 1], cuts[|cuts| - 1];
      assert WellMade(last) && Complete(last, id);
      assert Held(cuts, id) == Held(front, id) + HeldBy(last, id);
      CarriedContents(front, id);
      assert forall x | x in HeldBy(last, id) :: x in Held(cuts, id);
      UntimedTimed(HeldBy(last, id));
      UntimedConcat(Carried(front, id), SamplesIn(last.segment.data, id));
    }
  }

  lemma {:induction false} UntimedTimed(samples: seq<Sample>)
    requires forall x | x in samples :: x.duration == 0
    ensures Untimed(TimedAll(samples)) == samples
  {
  }

  lemma {:induction false} UntimedConcat(a: seq<Sample>, b: seq<Sample>)
    ensures Untimed(a + b) == Untimed(a) + Untimed(b)
    ensures TimedAll(a + b) == TimedAll(a) + TimedAll(b)
  {
  }

  /** Nothing is missing from this cut: it held no frame of the track, or the configuration came first. */
  ghost predicate InTime(events: seq<Event>, c: Cut, id: nat) {
    HeldBy(c, id) == [] || (c.at < |events| && Configured(events, c.at, id))
  }

  /**
   In every run the bytes of the segments, followed by the samples still buffered, are exactly the
   frames pushed on a track, in order, if and only if every segment that had frames on that track
   was closed by a frame that came after an event setting the track's configuration.
   */
  lemma {:induction false} BytesCarryEveryFrame(settings: Settings, events: seq<Event>, id: nat)
    requires 1 <= id <= 2
    ensures var t := Run(settings, events);
      Untimed(Carried(t.cuts, id)) + Pending(t, id) == Pushed(t, id)
      <==> forall k | 0 <= k < |t.cuts| :: InTime(events, t.cuts[k], id)
  {
    hide Run;
    var t := Run(settings, events);
    CarriesIffComplete(settings, events, id);
    forall k | 0 <= k < |t.cuts| ensures Complete(t.cuts[k], id) <==> InTime(events, t.cuts[k], id) {
      CutsFollowConfiguration(settings, events, id, k);
    }
    assert forall c :: c in t.cuts <==> exists k | 0 <= k < |t.cuts| :: t.cuts[k] == c;
  }

  lemma {:induction false} CarriesIffComplete(settings: Settings, events: seq<Event>, id: nat)
    requires 1 <= id <= 2
    ensures var t := Run(settings, events);
      Untimed(Carried(t.cuts, id)) + Pending(t, id) == Pushed(t, id) <==> forall c | c in t.cuts :: Complete(c, id)
  {
    var t := Run(settings, events);
    EveryRunConserves(settings, events);
    assert Held(t.cuts, id) + Pending(t, id) == Pushed(t, id);
    CarriedLength(t.cuts, id);
    if forall c | c in t.cuts :: Complete(c, id) {
      assert forall x | x in Held(t.cuts, id) :: x in Pushed(t, id);
      CarriedContents(t.cuts, id);
    }
  }

  /** Configured before its first frame, as by an RTMP sequence header, a run loses nothing. */
  lemma {:induction false} ConfigFirstIsComplete(settings: Settings, events: seq<Event>)
    requires events != [] ==> events[0].SetVideoConfig?
    ensures forall c | c in Run(settings, events).cuts :: HasTrack(c.segment.data, 1)
    ensures events != [] ==> Run(settings, events).state.videoConfig.Some?
  {
    hide PushFrame, WellCut, TrailingPart, HasTrack;
    if |events| == 1 {
      assert events[..0] == [];
      assert Run(settings, events).cuts == [];
    } else if events != [] {
      var before := events[..|events| - 1];
      ConfigFirstIsComplete(settings, before);
      EveryRunConserves(settings, before);
      var t, e := Run(settings, before), events[|events| - 1];
      EventCuts(t, e);
      if e.Push? { PushFacts(t.state, e.frame); }
      hide Observe;
      var t1 := Observe(t, e);
      forall c | c in t1.cuts ensures HasTrack(c.segment.data, 1) {
        if c !in t.cuts { assert c == t1.cuts[|t.cuts|] by { OneOfTheOld(t1.cuts, t.cuts, c); } }
      }
    }
  }

  lemma {:induction false} OneOfTheOld(longer: seq<Cut>, cuts: seq<Cut>, c: Cut)
    requires |longer| == |cuts| + 1 && longer[..|cuts|] == cuts && c in longer && c !in cuts
    ensures c == longer[|cuts|]
  {
    assert longer == cuts + [longer[|cuts|]];
  }

  lemma {:induction false} NoneCarried(cuts: seq<Cut>)
    requires forall k | 0 <= k < |cuts| :: WellMade(cuts[k]) && !HasTrack(cuts[k].segment.data, 1)
    ensures Carried(cuts, 1) == []
  {
    hide HasTrack;
    if cuts != [] { NoneCarried(cuts[..|cuts| - 1]); }
  }

  /** Without a configuration, as in the SRT path, every segment's bytes are empty of video. */
  lemma {:induction false} NoConfigCarriesNothing(settings: Settings, events: seq<Event>)
    requires forall e | e in events :: !e.SetVideoConfig?
    ensures Carried(Run(settings, events).cuts, 1) == []
  {
    var cuts := Run(settings, events).cuts;
    EveryRunConserves(settings, events);
    forall k | 0 <= k < |cuts| ensures !HasTrack(cuts[k].segment.data, 1) {
      CutsFollowConfiguration(settings, events, 1, k);
    }
    hide Run, HasTrack;
    NoneCarried(cuts);
  }

  // ------------------------------------------------------------------------------------------
  // LL-HLS: the parts of a segment are the segment, as far as video goes.

  ghost predicate Numbered(parts: seq<PartCut>) {
    forall i | 0 <= i < |parts| ::
      parts[i].part.index == i && WellCutPart(parts[i].part, parts[i].video, parts[i].audio)
  }

  ghost predicate PartsConserved(t: Trace) {
    && t.state.segmentParts == []
    && |t.openParts| == t.state.partIndex && Numbered(t.openParts)
    && (if t.state.settings.llHls
        then PartVideoOf(t.openParts) + t.state.part.video == t.state.current.video
        else t.openParts == [])
    && forall c | c in t.cuts :: Numbered(c.parts)
         && if t.state.settings.llHls then PartVideoOf(c.parts) == c.video else c.parts == []
  }

  lemma {:induction false} EveryRunSplitsIntoParts(settings: Settings, events: seq<Event>)
    ensures PartsConserved(Run(settings, events)) && Run(settings, events).state.settings == settings
  {
    if events != [] {
      EveryRunSplitsIntoParts(settings, events[..|events| - 1]);
      ObserveSplits(Run(settings, events[..|events| - 1]), events[|events| - 1]);
    }
  }

  lemma {:induction false} ObserveSplits(t: Trace, e: Event)
    requires PartsConserved(t)
    ensures PartsConserved(Observe(t, e)) && Observe(t, e).state.settings == t.state.settings
  {
    if e.Push? {
      PushFacts(t.state, e.frame);
      var (s1, o) := PushFrame(t.state, e.frame);
      if o.segment.Some? {
        assert PartCuts([], t.state, t.seen) == [] && t.openParts + [] == t.openParts;
        ClosingSplits(t, e.frame, Observe(t, e), o.segment.value);
      } else {
        ContinuingSplits(t, e.frame, Observe(t, e), o.parts);
      }
    } else {
      assert t.openParts + PartCuts([], t.state, t.seen) == t.openParts;
    }
  }

  lemma {:induction false} AppendPart(parts: seq<PartCut>, p: PartCut)
    requires Numbered(parts) && p.part.index == |parts| && WellCutPart(p.part, p.video, p.audio)
    ensures Numbered(parts + [p])
    ensures PartVideoOf(parts + [p]) == PartVideoOf(parts) + p.video
  {
  }

  lemma {:induction false} ClosingSplits(t: Trace, f: Frame, t1: Trace, g: Segment)
    requires PartsConserved(t) && Closes(t.state, f, t1.state, g)
    requires t1.state.segmentParts == [] && t1.state.settings == t.state.settings && t1.openParts == []
    requires t1.cuts == t.cuts + [CutOf(t, g, t.openParts + PartCuts(g.parts, t.state, t.seen))]
    ensures PartsConserved(t1)
  {
    hide HasTrack, SamplesIn, WellCut, WellCutPart;
    var s := t.state;
    var parts := t.openParts + PartCuts(g.parts, s, t.seen);
    if s.settings.llHls && s.part.video != [] {
      assert PartCuts(g.parts, s, t.seen) == [PartCut(g.parts[0], s.part.video, s.part.audio, t.seen)];
      AppendPart(t.openParts, PartCut(g.parts[0], s.part.video, s.part.audio, t.seen));
    } else {
      assert parts == t.openParts;
    }
  }

  lemma {:induction false} ContinuingSplits(t: Trace, f: Frame, t1: Trace, parts: seq<Part>)
    requires PartsConserved(t) && Continues(t.state, f, t1.state, parts)
    requires t1.state.segmentParts == [] && t1.state.settings == t.state.settings && t1.cuts == t.cuts
    requires t1.openParts == t.openParts + PartCuts(parts, t.state, t.seen)
    ensures PartsConserved(t1)
  {
    var s := t.state;
    if parts == [] {
      assert t1.openParts == t.openParts;
    } else {
      assert PartCuts(parts, s, t.seen) == [PartCut(parts[0], s.part.video, s.part.audio, t.seen)];
      AppendPart(t.openParts, PartCut(parts[0], s.part.video, s.part.audio, t.seen));
    }
  }

  lemma {:induction false} PartsCarry(parts: seq<PartCut>)
    requires forall p | p in parts :: WellCutPart(p.part, p.video, p.audio)
    ensures |CarriedByParts(parts, 1)| <= |PartVideoOf(parts)|
    ensures CarriedByParts(parts, 1) == TimedAll(PartVideoOf(parts))
       <==> forall p | p in parts :: HasTrack(p.part.data, 1)
  {
    if parts != [] {
      var front, last := parts[..|parts| - 1], parts[|parts| - 1];
      PartsCarry(front);
      assert WellCutPart(last.part, last.video, last.audio);
      assert forall p :: p in parts <==> p in front || p == last;
      UntimedConcat(PartVideoOf(front), last.video);
      SplitEquality(CarriedByParts(front, 1), SamplesIn(last.part.data, 1),
                    TimedAll(PartVideoOf(front)), TimedAll(last.video));
    }
  }

  lemma {:induction false} SplitEquality<T>(a: seq<T>, b: seq<T>, c: seq<T>, d: seq<T>)
    requires |a| <= |c| && |b| <= |d|
    ensures a + b == c + d <==> a == c && b == d
  {
    if a + b == c + d {
      assert |a| == |c|;
      assert a == (a + b)[..|a|] && b == (a + b)[|a|..];
      assert c == (c + d)[..|c|] && d == (c + d)[|c|..];
    }
  }

  lemma {:induction false} NothingCarried(parts: seq<PartCut>)
    requires forall p | p in parts :: WellCutPart(p.part, p.video, p.audio) && !HasTrack(p.part.data, 1)
    ensures CarriedByParts(parts, 1) == []
  {
    if parts != [] {
      var last := parts[|parts| - 1];
      assert WellCutPart(last.part, last.video, last.audio) && !HasTrack(last.part.data, 1);
      NothingCarried(parts[..|parts| - 1]);
    }
  }

  /** The video configuration was set before the part's cut exactly if it was before the segment's. */
  ghost predicate SameConfiguration(events: seq<Event>, p: PartCut, c: Cut) {
    p.at < |events| && c.at < |events| && (Configured(events, p.at, 1) <==> Configured(events, c.at, 1))
  }

  /**
   LL-HLS: playing the parts cut for a segment, in index order, plays the segment's video sample for
   sample, if and only if no part was cut before the first video configuration of a segment that was
   closed after it.
   */
  lemma {:induction false} PartsPlayTheVideo(settings: Settings, events: seq<Event>, k: nat)
    requires settings.llHls && k < |Run(settings, events).cuts|
    ensures var c := Run(settings, events).cuts[k];
      CarriedByParts(c.parts, 1) == SamplesIn(c.segment.data, 1)
      <==> forall j | 0 <= j < |c.parts| :: SameConfiguration(events, c.parts[j], c)
  {
    var t := Run(settings, events);
    EveryRunConserves(settings, events);
    EveryRunSplitsIntoParts(settings, events);
    var c := t.cuts[k];
    assert WellMade(c) && c in t.cuts;
    CutsFollowConfiguration(settings, events, 1, k);
    hide Run;
    forall j | 0 <= j < |c.parts|
      ensures PartConfigured(events, c.parts[j], 1) && c.parts[j].at <= c.at
    {
      PartsFollowConfiguration(settings, events, 1, k, j);
    }
    PartsPlay(events, c);
  }

  lemma {:induction false} PartsPlay(events: seq<Event>, c: Cut)
    requires WellMade(c) && PartVideoOf(c.parts) == c.video && CutConfigured(events, c, 1)
    requires forall p | p in c.parts :: WellCutPart(p.part, p.video, p.audio)
    requires forall j | 0 <= j < |c.parts| :: PartConfigured(events, c.parts[j], 1) && c.parts[j].at <= c.at
    ensures CarriedByParts(c.parts, 1) == SamplesIn(c.segment.data, 1)
       <==> forall j | 0 <= j < |c.parts| :: SameConfiguration(events, c.parts[j], c)
  {
    hide HasTrack, SamplesIn;
    PartsCarry(c.parts);
    if Configured(events, c.at, 1) {
      assert (forall p | p in c.parts :: HasTrack(p.part.data, 1))
        <==> forall j | 0 <= j < |c.parts| :: HasTrack(c.parts[j].part.data, 1);
    } else {
      forall p | p in c.parts ensures !HasTrack(p.part.data, 1) {
        var j :| 0 <= j < |c.parts| && c.parts[j] == p;
        assert PartConfigured(events, c.parts[j], 1);
      }
      NothingCarried(c.parts);
    }
  }

  // ------------------------------------------------------------------------------------------
  // Plain HLS.

  lemma {:induction false} PlainPush(s: State, f: Frame)
    requires !s.settings.llHls
    ensures var s1 := PushFrame(s, f).0;
      && s1.settings == s.settings
      && s1.part.video == s.part.video + VideoSample(Push(f)) && s1.part.audio == s.part.audio + AudioSample(Push(f))
  {
    hide TimedBuffer, SegmentDue, Tracks;
    var timescale := TimescaleOf(s, f.track);
    var b := Begin(s, f.dts).0;
    assert CutIfDue(b, f, timescale).0.part == b.part;
  }

  /** With LL-HLS off nothing ever empties the part buffer: it holds every frame of the run. */
  lemma {:induction false} PlainHlsKeepsEveryFrame(settings: Settings, events: seq<Event>)
    requires !settings.llHls
    ensures var t := Run(settings, events);
      && t.state.settings == settings
      && t.state.part.video == t.pushedVideo && t.state.part.audio == t.pushedAudio
  {
    hide PushFrame;
    if events != [] {
      PlainHlsKeepsEveryFrame(settings, events[..|events| - 1]);
      var t, e := Run(settings, events[..|events| - 1]), events[|events| - 1];
      if e.Push? { PlainPush(t.state, e.frame); }
    }
  }
}
