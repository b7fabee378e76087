/**
 `LiveSegmenter`: accumulates frames and cuts fMP4 segments and LL-HLS parts.

 The packager is not modelled: `Media` is its output, kept as the arguments it was called with,
 so "which samples are in these bytes" can be asked.  Seconds are `real`.
 */
module Segmenter {
  import opened Wrappers
  import opened Decimal

  datatype TrackKind = Video | Audio

  datatype Frame = Frame(track: TrackKind, data: seq<Byte>, dts: nat, pts: nat, isKeyframe: bool)

  type Timescale = t: nat | t > 0 witness 1

  datatype Codec = Codec(timescale: Timescale, header: seq<Byte>)

  datatype Sample = Sample(data: seq<Byte>, duration: nat, isSync: bool, ctsOffset: int)

  datatype TrackData = TrackData(trackId: nat, baseDts: nat, samples: seq<Sample>)

  datatype Media =
    | Init(video: Codec, audio: Option<Codec>)
    | Fragment(sequence: nat, tracks: seq<TrackData>)

  datatype Part = Part(index: nat, duration: real, data: Media, independent: bool)

  datatype Segment =
    Segment(sequence: nat, duration: real, data: Media, parts: seq<Part>, independent: bool)

  datatype Output = Output(init: Option<Media>, parts: seq<Part>, segment: Option<Segment>)

  /** Frames accumulated since a cut; `start` is the DTS of the first frame seen after it. */
  datatype Buffer =
    Buffer(video: seq<Sample>, audio: seq<Sample>, videoBase: nat, audioBase: nat, start: Option<nat>)

  const EMPTY_BUFFER := Buffer([], [], 0, 0, None)

  datatype Settings = Settings(segmentDuration: real, partDuration: real, llHls: bool)

  datatype State = State(
    settings: Settings,
    videoConfig: Option<Codec>,
    audioConfig: Option<Codec>,
    initBuilt: bool,
    nextSequence: nat,
    current: Buffer,
    part: Buffer,
    partIndex: nat,
    segmentParts: seq<Part>)

  function New(settings: Settings): State {
    State(settings, None, None, false, 0, EMPTY_BUFFER, EMPTY_BUFFER, 0, [])
  }

  const DEFAULT_SAMPLE_DURATION: nat := 3000

  function Timed(s: Sample): Sample {
    if s.duration == 0 then s.(duration := DEFAULT_SAMPLE_DURATION) else s
  }

  function TimedAll(samples: seq<Sample>): (r: seq<Sample>)
    ensures |r| == |samples|
  {
    seq(|samples|, i requires 0 <= i < |samples| => Timed(samples[i]))
  }

  function TotalDuration(samples: seq<Sample>, timescale: Timescale): (r: real)
    ensures r >= 0.0
  {
    if samples == [] then 0.0
    else TotalDuration(samples[..|samples| - 1], timescale)
         + samples[|samples| - 1].duration as real / timescale as real
  }

  function StartsOnSync(samples: seq<Sample>): bool {
    samples == [] || samples[0].isSync
  }

  /** The tracks handed to the packager: a track without a codec configuration is left out. */
  function Tracks(videoConfig: Option<Codec>, audioConfig: Option<Codec>, b: Buffer): seq<TrackData> {
    (if videoConfig.Some? then [TrackData(1, b.videoBase, b.video)] else [])
    + (if audioConfig.Some? then [TrackData(2, b.audioBase, b.audio)] else [])
  }

  function TimedBuffer(b: Buffer): Buffer {
    b.(video := TimedAll(b.video), audio := TimedAll(b.audio))
  }

  function CutPart(s: State, timescale: Timescale): (State, Option<Part>) {
    if s.part.video == [] && s.part.audio == [] then (s, None)
    else
      var b := TimedBuffer(s.part);
      var data := Fragment((s.nextSequence * 1000 + s.partIndex + 1) % U32_LIMIT,
                           Tracks(s.videoConfig, s.audioConfig, b));
      (s.(partIndex := s.partIndex + 1, part := b.(video := [], audio := [], start := None)),
       Some(Part(s.partIndex, TotalDuration(b.video, timescale), data, StartsOnSync(b.video))))
  }

  function CutTrailingPart(s: State, timescale: Timescale): State {
    if s.settings.llHls && s.part.video != [] then
      var (s1, part) := CutPart(s, timescale);
      if part.Some? then s1.(segmentParts := s1.segmentParts + [part.value]) else s1
    else s
  }

  function CutSegment(s: State, timescale: Timescale): (State, Segment) {
    var s1 := CutTrailingPart(s.(current := TimedBuffer(s.current)), timescale);
    var data := Fragment(s1.nextSequence % U32_LIMIT, Tracks(s1.videoConfig, s1.audioConfig, s1.current));
    (s1.(nextSequence := s1.nextSequence + 1, current := s1.current.(video := [], audio := [], start := None),
         partIndex := 0, segmentParts := []),
     Segment(s1.nextSequence, TotalDuration(s1.current.video, timescale), data, s1.segmentParts,
             StartsOnSync(s1.current.video)))
  }

  /** `elapsed >= duration` with the u64 subtraction wrapping, as in a release build. */
  predicate Elapsed(dts: nat, start: nat, timescale: Timescale, duration: real) {
    ((dts - start) % U64_LIMIT) as real / timescale as real >= duration
  }

  /** `(pts as i64 - dts as i64) as i32`. */
  function CtsOffset(pts: nat, dts: nat): int {
    (pts - dts + 0x8000_0000) % U32_LIMIT - 0x8000_0000
  }

  function SampleOf(f: Frame): Sample {
    Sample(f.data, 0, f.isKeyframe, CtsOffset(f.pts, f.dts))
  }

  function TimescaleOf(s: State, track: TrackKind): Timescale {
    match track
    case Video => if s.videoConfig.Some? then s.videoConfig.value.timescale else 90000
    case Audio => if s.audioConfig.Some? then s.audioConfig.value.timescale else 48000
  }

  /** The init segment is built once, by the first frame that finds a video configuration. */
  function BuildInit(s: State): (State, Option<Media>) {
    if !s.initBuilt && s.videoConfig.Some?
    then (s.(initBuilt := true), Some(Init(s.videoConfig.value, s.audioConfig)))
    else (s, None)
  }

  function MarkStart(b: Buffer, dts: nat): Buffer {
    if b.start.None? then b.(start := Some(dts)) else b
  }

  predicate SegmentDue(s: State, f: Frame, timescale: Timescale) {
    f.track == Video && f.isKeyframe && s.current.start.Some? && s.current.video != []
    && Elapsed(f.dts, s.current.start.value, timescale, s.settings.segmentDuration)
  }

  predicate PartDue(s: State, f: Frame, timescale: Timescale) {
    s.settings.llHls && s.part.video != []
    && if s.part.start.Some? then Elapsed(f.dts, s.part.start.value, timescale, s.settings.partDuration)
       else 0.0 >= s.settings.partDuration
  }

  function Accumulate(b: Buffer, f: Frame): Buffer {
    match f.track
    case Video =>
      b.(videoBase := if b.video == [] then f.dts else b.videoBase, video := b.video + [SampleOf(f)])
    case Audio =>
      b.(audioBase := if b.audio == [] then f.dts else b.audioBase, audio := b.audio + [SampleOf(f)])
  }

  function CutIfDue(s: State, f: Frame, timescale: Timescale): (State, Option<Segment>) {
    if SegmentDue(s, f, timescale)
    then var (t, segment) := CutSegment(s, timescale); (t, Some(segment))
    else (s, None)
  }

  function CutPartIfDue(s: State, f: Frame, timescale: Timescale): (State, Option<Part>) {
    if PartDue(s, f, timescale) then CutPart(s, timescale) else (s, None)
  }

  function Begin(s: State, dts: nat): (State, Option<Media>) {
    var (s0, init) := BuildInit(s);
    (s0.(current := MarkStart(s0.current, dts), part := MarkStart(s0.part, dts)), init)
  }

  function PushFrame(s: State, f: Frame): (State, Output) {
    var timescale := TimescaleOf(s, f.track);
    var (s1, init) := Begin(s, f.dts);
    var (s2, segment) := CutIfDue(s1, f, timescale);
    var (s3, part) := CutPartIfDue(s2, f, timescale);
    (s3.(current := Accumulate(s3.current, f), part := Accumulate(s3.part, f)),
     Output(init, if part.Some? then [part.value] else [], segment))
  }

  /** A frame that closes a segment never closes a part of the next one as well. */
  lemma SegmentExcludesParts(s: State, f: Frame)
    ensures var o := PushFrame(s, f).1; o.segment.Some? ==> o.parts == []
    ensures |PushFrame(s, f).1.parts| <= 1
  {
  }

  // ------------------------------------------------------------------------------------------
  // The object the ingest task owns.

  /** `compute_durations`: fills in the default duration, in one pass over the samples. */
  method ComputeDurations(samples: seq<Sample>) returns (r: seq<Sample>)
    ensures r == TimedAll(samples)
  {
    r := samples;
    for i := 0 to |samples|
      invariant |r| == |samples|
      invariant forall j | 0 <= j < i :: r[j] == Timed(samples[j])
      invariant forall j | i <= j < |samples| :: r[j] == samples[j]
    {
      if r[i].duration == 0 {
        r := r[i := r[i].(duration := DEFAULT_SAMPLE_DURATION)];
      }
    }
  }

  /** Sum of sample durations in seconds, one sample at a time. */
  method SumDurations(samples: seq<Sample>, timescale: Timescale) returns (total: real)
    ensures total == TotalDuration(samples, timescale)
  {
    total := 0.0;
    for i := 0 to |samples|
      invariant total == TotalDuration(samples[..i], timescale)
    {
      assert samples[..i + 1][..i] == samples[..i];
      total := total + samples[i].duration as real / timescale as real;
    }
    assert samples[..|samples|] == samples;
  }

  class LiveSegmenter {
    const settings: Settings
    var videoConfig: Option<Codec>
    var audioConfig: Option<Codec>
    var initSegmentBuilt: bool
    var nextSequence: nat
    var current: Buffer
    var part: Buffer
    var partIndex: nat
    var segmentParts: seq<Part>

    ghost function View(): State
      reads this
    {
      State(settings, videoConfig, audioConfig, initSegmentBuilt, nextSequence, current, part,
            partIndex, segmentParts)
    }

    constructor (settings: Settings)
      ensures View() == New(settings)
    {
      this.settings := settings;
      videoConfig, audioConfig, initSegmentBuilt, nextSequence := None, None, false, 0;
      current, part, partIndex, segmentParts := EMPTY_BUFFER, EMPTY_BUFFER, 0, [];
    }

    method Push(f: Frame) returns (output: Output)
      modifies this
      ensures View() == PushFrame(old(View()), f).0
      ensures output == PushFrame(old(View()), f).1
    {
      var timescale := match f.track
        case Video => if videoConfig.Some? then videoConfig.value.timescale else 90000
        case Audio => if audioConfig.Some? then audioConfig.value.timescale else 48000;
      var init := BeginInPlace(f.dts);
      var segment := TrySegment(f, timescale);
      var p := TryPart(f, timescale);
      output := Output(init, if p.Some? then [p.value] else [], segment);
      current, part := Accumulate(current, f), Accumulate(part, f);
    }

    method BeginInPlace(dts: nat) returns (init: Option<Media>)
      modifies this
      ensures (View(), init) == Begin(old(View()), dts)
    {
      init := None;
      if !initSegmentBuilt && videoConfig.Some? {
        init, initSegmentBuilt := Some(Init(videoConfig.value, audioConfig)), true;
      }
      if current.start.None? { current := current.(start := Some(dts)); }
      if part.start.None? { part := part.(start := Some(dts)); }
    }

    method TrySegment(f: Frame, timescale: Timescale) returns (segment: Option<Segment>)
      modifies this
      ensures (View(), segment) == CutIfDue(old(View()), f, timescale)
    {
      segment := None;
      if f.track == Video && f.isKeyframe && current.start.Some? && current.video != [] {
        if Elapsed(f.dts, current.start.value, timescale, settings.segmentDuration) {
          var cut := CutSegmentInPlace(timescale);
          segment := Some(cut);
        }
      }
    }

    method TryPart(f: Frame, timescale: Timescale) returns (p: Option<Part>)
      modifies this
      ensures (View(), p) == CutPartIfDue(old(View()), f, timescale)
    {
      p := None;
      if settings.llHls {
        var due := if part.start.Some? then Elapsed(f.dts, part.start.value, timescale, settings.partDuration)
                   else 0.0 >= settings.partDuration;
        if due && part.video != [] {
          p := CutPartInPlace(timescale);
        }
      }
    }

    method CutSegmentInPlace(timescale: Timescale) returns (segment: Segment)
      modifies this
      ensures View() == CutSegment(old(View()), timescale).0
      ensures segment == CutSegment(old(View()), timescale).1
    {
      var video := ComputeDurations(current.video);
      var audio := ComputeDurations(current.audio);
      current := current.(video := video, audio := audio);
      CutTrailingInPlace(timescale);
      var duration := SumDurations(current.video, timescale);
      var data := Fragment(nextSequence % U32_LIMIT, Tracks(videoConfig, audioConfig, current));
      segment := Segment(nextSequence, duration, data, segmentParts,
                         current.video == [] || current.video[0].isSync);
      nextSequence, segmentParts, partIndex := nextSequence + 1, [], 0;
      current := current.(video := [], audio := [], start := None);
    }

    method CutTrailingInPlace(timescale: Timescale)
      modifies this
      ensures View() == CutTrailingPart(old(View()), timescale)
    {
      if settings.llHls && part.video != [] {
        var trailing := CutPartInPlace(timescale);
        if trailing.Some? { segmentParts := segmentParts + [trailing.value]; }
      }
    }

    method CutPartInPlace(timescale: Timescale) returns (p: Option<Part>)
      modifies this
      ensures View() == CutPart(old(View()), timescale).0
      ensures p == CutPart(old(View()), timescale).1
    {
      if part.video == [] && part.audio == [] {
        return None;
      }
      var video := ComputeDurations(part.video);
      var audio := ComputeDurations(part.audio);
      part := part.(video := video, audio := audio);
      var duration := SumDurations(part.video, timescale);
      var data := Fragment((nextSequence * 1000 + partIndex + 1) % U32_LIMIT,
                           Tracks(videoConfig, audioConfig, part));
      p := Some(Part(partIndex, duration, data, part.video == [] || part.video[0].isSync));
      partIndex := partIndex + 1;
      part := part.(video := [], audio := [], start := None);
    }
  }
}
