/**
 What a cut segment or part is made of: its number, duration, bytes and flags, from the frames
 pushed since the cut before.
 */
module CutContents {
  import opened Wrappers
  import opened Decimal
  import opened Segmenter
  import opened Conservation
  import opened CutTiming

  /** A frame's bytes and key flag, with its composition offset where 32 bits hold it. */
  lemma {:induction false} SampleIsFrame(f: Frame)
    ensures var x := SampleOf(f);
      && x.data == f.data && x.isSync == f.isKeyframe && x.duration == 0
      && -0x8000_0000 <= x.ctsOffset < 0x8000_0000 && (x.ctsOffset - (f.pts - f.dts)) % U32_LIMIT == 0
      && (-0x8000_0000 <= f.pts - f.dts < 0x8000_0000 ==> x.ctsOffset == f.pts - f.dts)
  {
    OffsetWraps(f.pts - f.dts);
  }

  lemma {:induction false} OffsetWraps(d: int)
    ensures var r := (d + 0x8000_0000) % U32_LIMIT - 0x8000_0000; (r - d) % U32_LIMIT == 0
    ensures -0x8000_0000 <= d < 0x8000_0000 ==> (d + 0x8000_0000) % U32_LIMIT - 0x8000_0000 == d
  {
  }

  /** The frame as a player sees it: its sample with the default duration. */
  function Played(frames: seq<Frame>): (r: seq<Sample>)
    ensures |r| == |frames|
  {
    seq(|frames|, i requires 0 <= i < |frames| =>
      SampleOf(frames[i]).(duration := 3000))
  }

  /** A fragment: the configured tracks, each beginning at its first frame's time. */
  ghost predicate Carries(m: Media, number: nat, video: seq<Frame>, audio: seq<Frame>, hasVideo: bool, hasAudio: bool) {
    && m.Fragment? && m.sequence == number % U32_LIMIT
    && |m.tracks| == (if hasVideo then 1 else 0) + (if hasAudio then 1 else 0)
    && (hasVideo ==> CarriesTrack(m.tracks[0], 1, video))
    && (hasAudio ==> CarriesTrack(m.tracks[|m.tracks| - 1], 2, audio))
  }

  ghost predicate CarriesTrack(t: TrackData, id: nat, frames: seq<Frame>) {
    t.trackId == id && t.samples == Played(frames) && (frames != [] ==> t.baseDts == frames[0].dts)
  }

  lemma {:induction false} PlayedIsTimed(frames: seq<Frame>)
    ensures TimedAll(Samples(frames)) == Played(frames)
  {
  }

  lemma {:induction false} Length(frames: seq<Frame>, timescale: Timescale)
    ensures TotalDuration(TimedAll(Samples(frames)), timescale) == |frames| as real * (3000.0 / timescale as real)
  {
    DurationCountsSamples(Samples(frames), timescale);
  }

  lemma {:induction false} BufferCarries(b: Buffer, events: seq<Event>, from: nat, since: nat, number: nat,
                                        videoConfig: Option<Codec>, audioConfig: Option<Codec>)
    requires Holds(b, events, from, since)
    ensures var v, a := FramesOf(events, from, |events|, Video), FramesOf(events, from, |events|, Audio);
      && Carries(Fragment(number % U32_LIMIT, Tracks(videoConfig, audioConfig, TimedBuffer(b))), number, v, a,
                 videoConfig.Some?, audioConfig.Some?)
      && forall timescale ::
           TotalDuration(TimedBuffer(b).video, timescale) == |v| as real * (3000.0 / timescale as real)
  {
    hide FramesOf, FirstDts, TimedAll, TotalDuration, Samples, Played;
    var v, a := FramesOf(events, from, |events|, Video), FramesOf(events, from, |events|, Audio);
    PlayedIsTimed(v);
    PlayedIsTimed(a);
    forall timescale
      ensures TotalDuration(TimedBuffer(b).video, timescale) == |v| as real * (3000.0 / timescale as real)
    {
      Length(v, timescale);
    }
  }

  /** The segment a frame closes: everything pushed since the frame that closed the one before. */
  ghost predicate SegmentOf(g: Segment, number: nat, events: seq<Event>, from: nat)
    requires from <= |events|
  {
    var v, a := FramesOf(events, from, |events|, Video), FramesOf(events, from, |events|, Audio);
    && g.sequence == number
    && g.duration == |v| as real * (3000.0 / TimescaleAt(events, |events|, Video) as real)
    && g.independent == (v == [] || v[0].isKeyframe)
    && Carries(g.data, number, v, a, Configured(events, |events|, 1), Configured(events, |events|, 2))
  }

  lemma {:induction false} CutSegmentIs(s: State, timescale: Timescale)
    ensures var g, b := CutSegment(s, timescale).1, TimedBuffer(s.current);
      && g.sequence == s.nextSequence && g.duration == TotalDuration(b.video, timescale)
      && g.data == Fragment(s.nextSequence % U32_LIMIT, Tracks(s.videoConfig, s.audioConfig, b))
      && g.independent == StartsOnSync(b.video)
  {
    hide Tracks, TotalDuration, TimedAll;
  }

  lemma {:induction false} PushCuts(s: State, f: Frame)
    requires s.segmentParts == []
    ensures var o, timescale := PushFrame(s, f).1, TimescaleOf(s, f.track);
      && (o.segment.Some? ==>
            var g, b := o.segment.value, TimedBuffer(s.current);
            && g.sequence == s.nextSequence && g.duration == TotalDuration(b.video, timescale)
            && g.data == Fragment(s.nextSequence % U32_LIMIT, Tracks(s.videoConfig, s.audioConfig, b))
            && g.independent == StartsOnSync(b.video))
      && (forall p | p in o.parts || (o.segment.Some? && p in o.segment.value.parts) ::
            var b := TimedBuffer(s.part);
            && p.index == s.partIndex && p.duration == TotalDuration(b.video, timescale)
            && p.data == Fragment((s.nextSequence * 1000 + s.partIndex + 1) % U32_LIMIT,
                                  Tracks(s.videoConfig, s.audioConfig, b))
            && p.independent == StartsOnSync(b.video))
  {
    hide Elapsed, TotalDuration, Accumulate, TimedAll;
    var timescale := TimescaleOf(s, f.track);
    var b := Begin(s, f.dts).0;
    SameTracks(s.current, b.current, s.videoConfig, s.audioConfig);
    SameTracks(s.part, b.part, s.videoConfig, s.audioConfig);
    hide Tracks;
    if SegmentDue(b, f, timescale) {
      CutSegmentIs(b, timescale);
      TrailingCut(b, timescale);
      assert !PartDue(CutSegment(b, timescale).0, f, timescale);
    }
  }

  lemma {:induction false} SameTracks(a: Buffer, b: Buffer, videoConfig: Option<Codec>, audioConfig: Option<Codec>)
    requires b == a.(start := b.start)
    ensures Tracks(videoConfig, audioConfig, TimedBuffer(a)) == Tracks(videoConfig, audioConfig, TimedBuffer(b))
  {
  }

  lemma {:induction false} FlagOf(frames: seq<Frame>)
    ensures StartsOnSync(TimedAll(Samples(frames))) == (frames == [] || frames[0].isKeyframe)
  {
  }

  /**
   Every segment of every run: the frame that closes it makes it of exactly the frames pushed since
   the frame that closed the one before, with 3000 ticks for each video frame.
   */
  lemma {:induction false} SegmentIsItsFrames(settings: Settings, events: seq<Event>, f: Frame)
    requires Run(settings, events + [Push(f)]).cuts != Run(settings, events).cuts
    ensures var t, t1 := Run(settings, events), Run(settings, events + [Push(f)]);
      && |t1.cuts| == |t.cuts| + 1 && Opened(t) <= |events|
      && SegmentOf(t1.cuts[|t.cuts|].segment, |t.cuts|, events, Opened(t))
  {
    hide Run, PushFrame, Observe, Tracks, TimedBuffer, FramesOf, Configured, Carries, PartsConserved, Holds,
         TotalDuration, StartsOnSync, TimescaleAt;
    var t := Run(settings, events);
    var s := t.state;
    Ready(settings, events, f);
    AtTheCut(settings, events);
    PushCuts(s, f);
    VideoCloses(s, f);
    CutsGrow(t, f);
    NewCut(t, f);
    BufferCarries(s.current, events, Opened(t), Since(t), s.nextSequence, s.videoConfig, s.audioConfig);
    BufferFlag(s.current, events, Opened(t), Since(t));
  }

  lemma {:induction false} AtTheCut(settings: Settings, events: seq<Event>)
    ensures var t := Run(settings, events);
      && t.state.nextSequence == |t.cuts| && t.state.partIndex == |t.openParts|
      && (t.state.videoConfig.Some? <==> Configured(events, |events|, 1))
      && (t.state.audioConfig.Some? <==> Configured(events, |events|, 2))
  {
    hide Run, WellCut, Numbered, Configured;
    EveryRunConserves(settings, events);
    EveryRunSplitsIntoParts(settings, events);
    ConfigIsEvents(settings, events, 1);
    ConfigIsEvents(settings, events, 2);
  }

  lemma {:induction false} VideoCloses(s: State, f: Frame)
    ensures PushFrame(s, f).1.segment.Some? ==> f.track == Video
  {
    hide Elapsed, CutSegment;
  }

  lemma {:induction false} BufferFlag(b: Buffer, events: seq<Event>, from: nat, since: nat)
    requires Holds(b, events, from, since)
    ensures var v := FramesOf(events, from, |events|, Video);
      StartsOnSync(TimedBuffer(b).video) == (v == [] || v[0].isKeyframe)
  {
    FlagOf(FramesOf(events, from, |events|, Video));
  }

  lemma {:induction false} NewCut(t: Trace, f: Frame)
    requires PushFrame(t.state, f).1.segment.Some?
    ensures var t1 := Observe(t, Push(f));
      |t1.cuts| == |t.cuts| + 1 && t1.cuts[|t.cuts|].segment == PushFrame(t.state, f).1.segment.value
  {
    hide PushFrame;
  }

  /** The part a frame cuts, on its own or with the segment it closes. */
  ghost predicate PartOf(p: Part, number: nat, index: nat, events: seq<Event>, from: nat, track: TrackKind)
    requires from <= |events|
  {
    var v, a := FramesOf(events, from, |events|, Video), FramesOf(events, from, |events|, Audio);
    && p.index == index
    && p.duration == |v| as real * (3000.0 / TimescaleAt(events, |events|, track) as real)
    && p.independent == (v == [] || v[0].isKeyframe)
    && Carries(p.data, number * 1000 + index + 1, v, a, Configured(events, |events|, 1),
               Configured(events, |events|, 2))
  }

  /**
   Every part of every run: exactly the frames pushed since the frame that cut the part before.  Its
   duration is counted in ticks of the track of the frame that cuts it, audio included.
   */
  lemma {:induction false} PartIsItsFrames(settings: Settings, events: seq<Event>, f: Frame, p: Part)
    requires var o := PushFrame(Run(settings, events).state, f).1;
      p in o.parts || (o.segment.Some? && p in o.segment.value.parts)
    ensures var t := Run(settings, events);
      PartOpened(t) <= |events| && PartOf(p, |t.cuts|, |t.openParts|, events, PartOpened(t), f.track)
  {
    hide Run, PushFrame, Observe, Tracks, TimedBuffer, FramesOf, Configured, Carries, PartsConserved, Holds,
         TotalDuration, StartsOnSync, TimescaleAt;
    var t := Run(settings, events);
    var s := t.state;
    Ready(settings, events, f);
    AtTheCut(settings, events);
    PushCuts(s, f);
    BufferCarries(s.part, events, PartOpened(t), PartSince(t), s.nextSequence * 1000 + s.partIndex + 1,
                  s.videoConfig, s.audioConfig);
    BufferFlag(s.part, events, PartOpened(t), PartSince(t));
  }
}
