/**
 LL-HLS: the audio of a segment's parts.  A part is cut only when video is buffered, so audio can be
 left in the part buffer when a segment closes; it then goes out with the next segment's first part.
 */
module PartAudio {
  import opened Wrappers
  import opened Segmenter
  import opened Conservation

  function PartAudioOf(parts: seq<PartCut>): seq<Sample> {
    if parts == [] then [] else PartAudioOf(parts[..|parts| - 1]) + parts[|parts| - 1].audio
  }

  /** What the last of these cuts left behind. */
  function Carry(cuts: seq<Cut>): seq<Sample> {
    if cuts == [] then [] else cuts[|cuts| - 1].left
  }

  // ------------------------------------------------------------------------------------------
  // Every run.

  /** The parts of cut k hold what the cut before left and the segment's audio, but for what k left. */
  ghost predicate CutSplits(cuts: seq<Cut>, k: nat)
    requires k < |cuts|
  {
    && PartAudioOf(cuts[k].parts) + cuts[k].left == Carry(cuts[..k]) + cuts[k].audio
    && |cuts[k].left| <= |cuts[k].audio|
  }

  ghost predicate AudioSplits(t: Trace) {
    && PartAudioOf(t.openParts) + t.state.part.audio == Carry(t.cuts) + t.state.current.audio
    && (t.openParts != [] ==> |t.state.part.audio| <= |t.state.current.audio|)
    && forall k | 0 <= k < |t.cuts| :: CutSplits(t.cuts, k)
  }

  lemma {:induction false} EveryRunSplitsAudio(settings: Settings, events: seq<Event>)
    requires settings.llHls
    ensures AudioSplits(Run(settings, events))
  {
    hide AudioSplits, Observe, PartsConserved, Conserved;
    if events == [] {
      NothingSplit(settings);
    } else {
      var front := events[..|events| - 1];
      EveryRunSplitsAudio(settings, front);
      EveryRunSplitsIntoParts(settings, front);
      EveryRunConserves(settings, front);
      ObserveSplitsAudio(Run(settings, front), events[|front|]);
    }
  }

  lemma {:induction false} NothingSplit(settings: Settings)
    ensures AudioSplits(Run(settings, []))
  {
  }

  lemma {:induction false} ObserveSplitsAudio(t: Trace, e: Event)
    requires AudioSplits(t) && PartsConserved(t) && t.state.settings.llHls
    ensures AudioSplits(Observe(t, e))
  {
    hide PushFrame, AudioSplits, PartsConserved, TrailingPart;
    if e.Push? {
      assert t.state.segmentParts == [] by { NoneOpen(t); }
      PushFacts(t.state, e.frame);
      var (s1, o) := PushFrame(t.state, e.frame);
      if o.segment.Some? {
        assert PartCuts([], t.state, t.seen) == [] && t.openParts + [] == t.openParts;
        ClosingSplitsAudio(t, e.frame, Observe(t, e), o.segment.value);
      } else {
        ContinuingSplitsAudio(t, e.frame, Observe(t, e), o.parts);
      }
    } else {
      assert t.openParts + PartCuts([], t.state, t.seen) == t.openParts;
      SameSplits(t, Observe(t, e));
    }
  }

  lemma {:induction false} NoneOpen(t: Trace)
    requires PartsConserved(t)
    ensures t.state.segmentParts == []
  {
  }

  lemma {:induction false} SameSplits(t: Trace, t1: Trace)
    requires AudioSplits(t) && t1.openParts == t.openParts && t1.cuts == t.cuts
    requires t1.state.part == t.state.part && t1.state.current == t.state.current
    ensures AudioSplits(t1)
  {
  }

  lemma {:induction false} OneMorePart(parts: seq<PartCut>, p: PartCut)
    ensures PartAudioOf(parts + [p]) == PartAudioOf(parts) + p.audio
  {
    assert (parts + [p])[..|parts|] == parts;
  }

  lemma {:induction false} ContinuingSplitsAudio(t: Trace, f: Frame, t1: Trace, parts: seq<Part>)
    requires AudioSplits(t) && Continues(t.state, f, t1.state, parts)
    requires t1.cuts == t.cuts && t1.openParts == t.openParts + PartCuts(parts, t.state, t.seen)
    ensures AudioSplits(t1)
  {
    hide CutSplits, TrailingPart;
    var s, more := t.state, AudioSample(Push(f));
    if parts == [] {
      assert t1.openParts == t.openParts;
      Associative(PartAudioOf(t.openParts), s.part.audio, more);
    } else {
      var p := PartCut(parts[0], s.part.video, s.part.audio, t.seen);
      assert PartCuts(parts, s, t.seen) == [p];
      OneMorePart(t.openParts, p);
    }
    Associative(Carry(t.cuts), s.current.audio, more);
  }

  lemma {:induction false} ClosingSplitsAudio(t: Trace, f: Frame, t1: Trace, g: Segment)
    requires AudioSplits(t) && PartsConserved(t) && t.state.settings.llHls && Closes(t.state, f, t1.state, g)
    requires t1.openParts == []
    requires t1.cuts == t.cuts + [CutOf(t, g, t.openParts + PartCuts(g.parts, t.state, t.seen))]
    ensures AudioSplits(t1)
  {
    hide TrailingPart, WellCut, Numbered;
    var s, n := t.state, |t.cuts|;
    var c := t1.cuts[n];
    assert t1.cuts[..n] == t.cuts;
    forall k | 0 <= k < n ensures CutSplits(t1.cuts, k) {
      assert CutSplits(t.cuts, k) && t1.cuts[..k] == t.cuts[..k];
    }
    if s.part.video != [] {
      var p := PartCut(g.parts[0], s.part.video, s.part.audio, t.seen);
      assert PartCuts(g.parts, s, t.seen) == [p];
      OneMorePart(t.openParts, p);
      assert PartAudioOf(c.parts) + [] == PartAudioOf(c.parts);
    } else {
      assert c.parts == t.openParts;
      assert t.openParts != [];
    }
    assert CutSplits(t1.cuts, n);
    assert t1.state.part.audio + [] == t1.state.part.audio;
  }

  // ------------------------------------------------------------------------------------------
  // Which audio frames a player finds.  Frames are numbered from the segment's first; the negative
  // ones are those the cut before left behind.

  function Range(from: int, n: nat): (r: seq<int>)
    ensures |r| == n && forall i | 0 <= i < n :: r[i] == from + i
  {
    seq(n, i => from + i)
  }

  function PartFrames(parts: seq<PartCut>, from: int): seq<int> {
    if parts == [] then []
    else
      var front, last := parts[..|parts| - 1], parts[|parts| - 1];
      PartFrames(front, from)
      + if HasTrack(last.part.data, 2) then Range(from + |PartAudioOf(front)|, |last.audio|) else []
  }

  function SegmentFrames(c: Cut): seq<int> {
    if HasTrack(c.segment.data, 2) then Range(0, |c.audio|) else []
  }

  predicate Within(frames: seq<int>, from: int, n: nat) {
    forall i | 0 <= i < |frames| :: from <= frames[i] < from + n
  }

  /** The samples of these frames, `all` beginning with frame `from`. */
  function Pick(all: seq<Sample>, from: int, frames: seq<int>): (r: seq<Sample>)
    requires Within(frames, from, |all|)
    ensures |r| == |frames|
  {
    seq(|frames|, i requires 0 <= i < |frames| => all[frames[i] - from])
  }

  lemma {:induction false} PickConcat(all: seq<Sample>, from: int, a: seq<int>, b: seq<int>)
    requires Within(a, from, |all|) && Within(b, from, |all|)
    ensures Within(a + b, from, |all|) && Pick(all, from, a + b) == Pick(all, from, a) + Pick(all, from, b)
  {
  }

  lemma {:induction false} PickRange(all: seq<Sample>, from: int, a: nat, n: nat)
    requires a + n <= |all|
    ensures Within(Range(from + a, n), from, |all|) && Pick(all, from, Range(from + a, n)) == all[a..a + n]
  {
  }

  lemma {:induction false} PartFramesBound(parts: seq<PartCut>, from: int, x: int)
    requires x in PartFrames(parts, from)
    ensures from <= x < from + |PartAudioOf(parts)|
  {
    hide HasTrack;
    var front, last := parts[..|parts| - 1], parts[|parts| - 1];
    if x in PartFrames(front, from) { PartFramesBound(front, from, x); }
  }

  ghost predicate WellParts(parts: seq<PartCut>) {
    forall p | p in parts :: SamplesIn(p.part.data, 2) == if HasTrack(p.part.data, 2) then TimedAll(p.audio) else []
  }

  /** The audio in the parts' bytes is that of the frames numbered so. */
  lemma {:induction false} PartBytes(parts: seq<PartCut>, all: seq<Sample>, from: int)
    requires WellParts(parts) && PartAudioOf(parts) <= all
    ensures Within(PartFrames(parts, from), from, |all|)
    ensures CarriedByParts(parts, 2) == TimedAll(Pick(all, from, PartFrames(parts, from)))
  {
    hide HasTrack, SamplesIn, TimedAll, Pick, Within;
    if parts == [] {
      NothingPicked(all, from);
    } else {
      var front, last := parts[..|parts| - 1], parts[|parts| - 1];
      var a, n := |PartAudioOf(front)|, |last.audio|;
      assert last in parts;
      PrefixOfParts(parts, all);
      PartBytes(front, all, from);
      if HasTrack(last.part.data, 2) {
        PickRange(all, from, a, n);
        PickConcat(all, from, PartFrames(front, from), Range(from + a, n));
        UntimedConcat(Pick(all, from, PartFrames(front, from)), last.audio);
      } else {
        assert PartFrames(front, from) + [] == PartFrames(front, from);
        assert CarriedByParts(front, 2) + [] == CarriedByParts(front, 2);
      }
    }
  }

  lemma {:induction false} NothingPicked(all: seq<Sample>, from: int)
    ensures Within([], from, |all|) && TimedAll(Pick(all, from, [])) == []
  {
  }

  lemma {:induction false} PrefixOfParts(parts: seq<PartCut>, all: seq<Sample>)
    requires parts != [] && PartAudioOf(parts) <= all
    ensures var front, last := PartAudioOf(parts[..|parts| - 1]), parts[|parts| - 1].audio;
      front <= all && |front| + |last| <= |all| && last == all[|front|..|front| + |last|]
  {
    var front, last := PartAudioOf(parts[..|parts| - 1]), parts[|parts| - 1].audio;
    var both := PartAudioOf(parts);
    assert both == front + last && all[..|both|] == both;
    assert front == both[..|front|] == all[..|front|];
    assert last == both[|front|..] == all[..|both|][|front|..];
  }

  // ------------------------------------------------------------------------------------------
  // When they are the segment's.

  function AtLeastZero(x: int): nat { if x < 0 then 0 else x }

  /** A part carries its audio and all of it is the segment's, or it does not and none of it is. */
  ghost predicate Proper(parts: seq<PartCut>, from: int, j: nat)
    requires j < |parts|
  {
    var first, p := from + |PartAudioOf(parts[..j])|, parts[j];
    p.audio == [] || if HasTrack(p.part.data, 2) then first >= 0 else first + |p.audio| <= 0
  }

  ghost predicate AllProper(parts: seq<PartCut>, from: int) {
    forall j | 0 <= j < |parts| :: Proper(parts, from, j)
  }

  lemma {:induction false} AllProperSnoc(parts: seq<PartCut>, from: int)
    requires parts != []
    ensures AllProper(parts, from) <==> AllProper(parts[..|parts| - 1], from) && Proper(parts, from, |parts| - 1)
  {
    hide HasTrack;
    var front := parts[..|parts| - 1];
    forall j | 0 <= j < |front| ensures Proper(parts, from, j) <==> Proper(front, from, j) {
      assert parts[..j] == front[..j];
    }
  }

  lemma {:induction false} TooShort(frames: seq<int>, e: int, n: nat)
    requires (forall x | x in frames :: x < e) && n > 0 && e + n > 0
    ensures frames != Range(0, e + n)
  {
    if |frames| == e + n { assert frames[e + n - 1] in frames; }
  }

  lemma {:induction false} LastPart(frames: seq<int>, e: int, n: nat, carried: bool)
    requires forall x | x in frames :: x < e
    ensures frames + (if carried then Range(e, n) else []) == Range(0, AtLeastZero(e + n))
       <==> && frames == Range(0, AtLeastZero(e))
            && (n == 0 || if carried then e >= 0 else e + n <= 0)
  {
    var tail, whole := if carried then Range(e, n) else [], Range(0, AtLeastZero(e + n));
    var before := Range(0, AtLeastZero(e));
    if frames + tail == whole {
      if carried && n > 0 {
        assert (frames + tail)[|frames|] == e;
        assert e >= 0 && |frames| == e;
        assert frames == whole[..e] == before;
      } else {
        assert frames + [] == frames;
        if n > 0 && e + n > 0 { TooShort(frames, e, n); }
      }
    }
    if frames == before && (n == 0 || if carried then e >= 0 else e + n <= 0) {
      assert frames + tail == whole;
    }
  }

  lemma {:induction false} ProperIff(parts: seq<PartCut>, from: int)
    requires from <= 0
    ensures PartFrames(parts, from) == Range(0, AtLeastZero(from + |PartAudioOf(parts)|)) <==> AllProper(parts, from)
  {
    hide HasTrack, AllProper, Range, AtLeastZero;
    if parts == [] {
      assert AllProper(parts, from) by { NoParts(from); }
      assert Range(0, AtLeastZero(from)) == [] by { EmptyRange(from); }
    } else {
      var front, last := parts[..|parts| - 1], parts[|parts| - 1];
      var e := from + |PartAudioOf(front)|;
      ProperIff(front, from);
      AllProperSnoc(parts, from);
      forall x | x in PartFrames(front, from) ensures x < e { PartFramesBound(front, from, x); }
      LastPart(PartFrames(front, from), e, |last.audio|, HasTrack(last.part.data, 2));
    }
  }

  lemma {:induction false} EmptyRange(from: int)
    requires from <= 0
    ensures Range(0, AtLeastZero(from)) == []
  {
  }

  lemma {:induction false} NoParts(from: int)
    ensures AllProper([], from)
  {
  }

  /** The same on the events: was the audio configuration set before the part was cut? */
  ghost predicate ProperByEvents(events: seq<Event>, parts: seq<PartCut>, from: int, j: nat)
    requires j < |parts|
  {
    var first, p := from + |PartAudioOf(parts[..j])|, parts[j];
    p.audio == [] || (p.at < |events| && if Configured(events, p.at, 2) then first >= 0 else first + |p.audio| <= 0)
  }

  ghost predicate AllProperByEvents(events: seq<Event>, parts: seq<PartCut>, from: int) {
    forall j | 0 <= j < |parts| :: ProperByEvents(events, parts, from, j)
  }

  /**
   No audio configuration before the segment was closed; or nothing was left behind then, and each
   part with audio of this segment was cut after the configuration, each with audio of the one
   before it was not.
   */
  ghost predicate AudioInStep(events: seq<Event>, cuts: seq<Cut>, k: nat)
    requires k < |cuts|
  {
    var c := cuts[k];
    c.at < |events| && Configured(events, c.at, 2) ==>
      c.left == [] && AllProperByEvents(events, c.parts, -|Carry(cuts[..k])|)
  }

  lemma {:induction false} FramesIff(c: Cut, carry: seq<Sample>)
    requires PartAudioOf(c.parts) + c.left == carry + c.audio && |c.left| <= |c.audio| && HasTrack(c.segment.data, 2)
    ensures PartFrames(c.parts, -|carry|) == SegmentFrames(c) <==> c.left == [] && AllProper(c.parts, -|carry|)
  {
    hide HasTrack, AllProper, PartFrames;
    var from, n := -|carry|, |c.audio|;
    assert |PartAudioOf(c.parts)| + |c.left| == |carry| + n;
    ProperIff(c.parts, from);
    if c.left != [] && PartFrames(c.parts, from) == SegmentFrames(c) {
      assert SegmentFrames(c)[n - 1] == n - 1;
      PartFramesBound(c.parts, from, n - 1);
      assert false;
    }
  }

  lemma {:induction false} NoFrames(parts: seq<PartCut>, from: int)
    requires forall j | 0 <= j < |parts| :: !HasTrack(parts[j].part.data, 2)
    ensures PartFrames(parts, from) == []
  {
    hide HasTrack;
    if parts != [] { NoFrames(parts[..|parts| - 1], from); }
  }

  lemma {:induction false} PartsWell(parts: seq<PartCut>)
    requires Numbered(parts)
    ensures WellParts(parts)
  {
    hide HasTrack, SamplesIn;
  }

  /**
   LL-HLS audio, for every run and every segment cut in it.  The bytes of the parts and of the
   segment carry the audio frames numbered by `PartFrames` and `SegmentFrames`, out of the frames
   left behind by the cut before followed by the segment's own.  They are the same frames, in the
   same order, if and only if parts and segment are in step.
   */
  lemma {:induction false} PartsPlayTheAudio(settings: Settings, events: seq<Event>, k: nat)
    requires settings.llHls && k < |Run(settings, events).cuts|
    ensures var cuts := Run(settings, events).cuts;
      var c, carry := cuts[k], Carry(cuts[..k]);
      var from, all := -|carry|, carry + c.audio;
      && Within(PartFrames(c.parts, from), from, |all|) && Within(SegmentFrames(c), from, |all|)
      && CarriedByParts(c.parts, 2) == TimedAll(Pick(all, from, PartFrames(c.parts, from)))
      && SamplesIn(c.segment.data, 2) == TimedAll(Pick(all, from, SegmentFrames(c)))
      && (PartFrames(c.parts, from) == SegmentFrames(c) <==> AudioInStep(events, cuts, k))
  {
    hide Run, HasTrack, SamplesIn, PartFrames, Proper;
    var cuts := Run(settings, events).cuts;
    var c, carry := cuts[k], Carry(cuts[..k]);
    var from, all := -|carry|, carry + c.audio;
    EveryRunSplitsAudio(settings, events);
    assert CutSplits(cuts, k);
    CutWell(settings, events, k);
    assert PartAudioOf(c.parts) <= all by { assert PartAudioOf(c.parts) <= PartAudioOf(c.parts) + c.left; }
    PartBytes(c.parts, all, from);
    SegmentBytes(c, carry);
    InStepIff(settings, events, k);
  }

  lemma {:induction false} SegmentBytes(c: Cut, carry: seq<Sample>)
    requires WellMade(c)
    ensures var from, all := -|carry|, carry + c.audio;
      && Within(SegmentFrames(c), from, |all|)
      && SamplesIn(c.segment.data, 2) == TimedAll(Pick(all, from, SegmentFrames(c)))
  {
    hide HasTrack, SamplesIn;
    PickRange(carry + c.audio, -|carry|, |carry|, |c.audio|);
    assert (carry + c.audio)[|carry|..] == c.audio;
  }

  lemma {:induction false} CutWell(settings: Settings, events: seq<Event>, k: nat)
    requires settings.llHls && k < |Run(settings, events).cuts|
    ensures var c := Run(settings, events).cuts[k]; WellMade(c) && WellParts(c.parts)
  {
    hide Run;
    EveryRunConserves(settings, events);
    EveryRunSplitsIntoParts(settings, events);
    var cuts := Run(settings, events).cuts;
    assert cuts[k] in cuts;
    PartsWell(cuts[k].parts);
  }

  lemma {:induction false} InStepIff(settings: Settings, events: seq<Event>, k: nat)
    requires settings.llHls && k < |Run(settings, events).cuts|
    ensures var cuts := Run(settings, events).cuts;
      PartFrames(cuts[k].parts, -|Carry(cuts[..k])|) == SegmentFrames(cuts[k]) <==> AudioInStep(events, cuts, k)
  {
    hide Run, HasTrack, PartFrames, Configured, AllProper, AllProperByEvents;
    var cuts := Run(settings, events).cuts;
    var c, carry := cuts[k], Carry(cuts[..k]);
    var from := -|carry|;
    EveryRunSplitsAudio(settings, events);
    assert CutSplits(cuts, k);
    CutsFollowConfiguration(settings, events, 2, k);
    forall j | 0 <= j < |c.parts| ensures PartConfigured(events, c.parts[j], 2) && c.parts[j].at <= c.at {
      PartsFollowConfiguration(settings, events, 2, k, j);
    }
    if HasTrack(c.segment.data, 2) {
      FramesIff(c, carry);
      SameProper(events, c.parts, from);
    } else {
      forall j | 0 <= j < |c.parts| ensures !HasTrack(c.parts[j].part.data, 2) {
        assert PartConfigured(events, c.parts[j], 2);
        Later(events, c.parts[j].at, c.at);
      }
      NoFrames(c.parts, -|carry|);
    }
  }

  lemma {:induction false} SameProper(events: seq<Event>, parts: seq<PartCut>, from: int)
    requires forall j | 0 <= j < |parts| :: PartConfigured(events, parts[j], 2)
    ensures AllProper(parts, from) <==> AllProperByEvents(events, parts, from)
  {
    hide HasTrack, Configured;
    forall j | 0 <= j < |parts| ensures Proper(parts, from, j) <==> ProperByEvents(events, parts, from, j) {
      assert PartConfigured(events, parts[j], 2);
    }
  }

  lemma {:induction false} Later(events: seq<Event>, m: nat, n: nat)
    requires m <= n < |events| && !Configured(events, n, 2)
    ensures !Configured(events, m, 2)
  {
  }

  /**
   So with the audio configuration known in time, parts and segment carry the same audio if and only
   if neither this segment nor the one before was closed with audio and no video in the part buffer.
   */
  lemma {:induction false} InStepIffNothingLeft(settings: Settings, events: seq<Event>, k: nat)
    requires settings.llHls && k < |Run(settings, events).cuts|
    requires var c := Run(settings, events).cuts[k];
      && c.at < |events| && Configured(events, c.at, 2)
      && forall j | 0 <= j < |c.parts| :: c.parts[j].at < |events| && Configured(events, c.parts[j].at, 2)
    ensures var cuts := Run(settings, events).cuts;
      AudioInStep(events, cuts, k) <==> cuts[k].left == [] && Carry(cuts[..k]) == []
  {
    hide Run, Configured, AllProperByEvents, Carry;
    var cuts := Run(settings, events).cuts;
    EveryRunSplitsAudio(settings, events);
    assert CutSplits(cuts, k);
    ProperIffNothingCarried(events, cuts[k], Carry(cuts[..k]));
  }

  lemma {:induction false} ProperIffNothingCarried(events: seq<Event>, c: Cut, carry: seq<Sample>)
    requires PartAudioOf(c.parts) + c.left == carry + c.audio && |c.left| <= |c.audio|
    requires forall j | 0 <= j < |c.parts| :: c.parts[j].at < |events| && Configured(events, c.parts[j].at, 2)
    ensures AllProperByEvents(events, c.parts, -|carry|) <==> carry == []
  {
    hide Configured, PartAudioOf;
    assert |PartAudioOf(c.parts)| + |c.left| == |carry| + |c.audio|;
    if carry != [] {
      var from := -|carry|;
      assert c.parts[..|c.parts|] == c.parts;
      FirstAudio(c.parts, |c.parts|);
      var j :| 0 <= j < |c.parts| && c.parts[j].audio != [] && PartAudioOf(c.parts[..j]) == [];
      assert !ProperByEvents(events, c.parts, from, j);
    }
  }

  lemma {:induction false} FirstAudio(parts: seq<PartCut>, n: nat)
    requires n <= |parts| && PartAudioOf(parts[..n]) != []
    ensures exists j | 0 <= j < n :: parts[j].audio != [] && PartAudioOf(parts[..j]) == []
  {
    assert parts[..n][..n - 1] == parts[..n - 1];
    if PartAudioOf(parts[..n - 1]) != [] { FirstAudio(parts, n - 1); }
  }

  // ------------------------------------------------------------------------------------------
  // A run that leaves audio behind.

  function VideoAudioVideo(vc: Codec, ac: Codec, v: Frame, a: Frame, w: Frame): seq<Event> {
    [SetVideoConfig(vc), SetAudioConfig(ac), Push(v), Push(a), Push(w)]
  }

  lemma {:induction false} OneMore(settings: Settings, events: seq<Event>, e: Event)
    ensures Run(settings, events + [e]) == Observe(Run(settings, events), e)
  {
    hide Observe;
    assert (events + [e])[..|events|] == events;
  }

  lemma {:induction false} RunOfFive(settings: Settings, a: Event, b: Event, c: Event, d: Event, e: Event)
    ensures var t := Observe(Observe(Run(settings, []), a), b);
      Run(settings, [a, b, c, d, e]) == Observe(Observe(Observe(t, c), d), e)
  {
    hide Observe, Run;
    OneMore(settings, [], a);
    OneMore(settings, [a], b);
    OneMore(settings, [a, b], c);
    OneMore(settings, [a, b, c], d);
    OneMore(settings, [a, b, c, d], e);
    assert [] + [a] == [a] && [a] + [b] == [a, b] && [a, b] + [c] == [a, b, c];
    assert [a, b, c] + [d] == [a, b, c, d] && [a, b, c, d] + [e] == [a, b, c, d, e];
  }

  /** Both configurations set, the first key frame buffered, nothing cut. */
  ghost predicate VideoBuffered(t: Trace, v: Frame) {
    && t.state.settings == Settings(0.0, 0.0, true) && t.state.segmentParts == [] && t.state.audioConfig.Some?
    && t.cuts == [] && t.openParts == []
    && t.state.current.video == t.state.part.video == [SampleOf(v)]
    && t.state.current.audio == t.state.part.audio == []
  }

  lemma {:induction false} FirstKeyFrame(vc: Codec, ac: Codec, v: Frame)
    requires v.track == Video
    ensures var t := Observe(Observe(Run(Settings(0.0, 0.0, true), []), SetVideoConfig(vc)), SetAudioConfig(ac));
      VideoBuffered(Observe(t, Push(v)), v)
  {
    hide PushFrame, WellCut, TrailingPart, HasTrack;
    var settings := Settings(0.0, 0.0, true);
    var t := Observe(Observe(Run(settings, []), SetVideoConfig(vc)), SetAudioConfig(ac));
    assert t.state == New(settings).(videoConfig := Some(vc), audioConfig := Some(ac));
    assert t.cuts == [] && t.openParts == [];
    PushFacts(t.state, v);
    var (s, o) := PushFrame(t.state, v);
    assert o.segment.None? && o.parts == [];
    assert [] + [SampleOf(v)] == [SampleOf(v)];
  }

  /** One part cut, the audio frame alone in the part buffer. */
  ghost predicate AudioWaits(t: Trace, a: Frame) {
    && t.state.settings == Settings(0.0, 0.0, true) && t.state.segmentParts == [] && t.state.audioConfig.Some?
    && t.cuts == [] && |t.openParts| == 1 && SamplesIn(t.openParts[0].part.data, 2) == []
    && t.state.current.video != [] && t.state.part.video == []
    && t.state.current.audio == t.state.part.audio == [SampleOf(a)]
  }

  lemma {:induction false} AudioFrame(t: Trace, v: Frame, a: Frame)
    requires VideoBuffered(t, v) && a.track == Audio
    ensures AudioWaits(Observe(t, Push(a)), a)
  {
    hide PushFrame, WellCut, HasTrack, SamplesIn;
    ZeroCutsPart(t.state, a);
    PushFacts(t.state, a);
  }

  lemma {:induction false} SecondKeyFrame(t: Trace, a: Frame, w: Frame)
    requires AudioWaits(t, a) && w.track == Video && w.isKeyframe
    ensures var t1 := Observe(t, Push(w));
      && |t1.cuts| == 1 && t1.cuts[0].left == [SampleOf(a)] == t1.state.part.audio
      && SamplesIn(t1.cuts[0].segment.data, 2) == TimedAll([SampleOf(a)])
      && t1.cuts[0].parts == t.openParts
  {
    hide PushFrame, HasTrack, SamplesIn;
    ZeroCutsSegment(t.state, w);
    PushFacts(t.state, w);
  }

  /**
   Durations of 0 and both configurations first: a key frame, an audio frame and a key frame.  The
   audio frame cuts the first part, without itself; the second key frame finds no video in the part
   buffer.  The segment's bytes carry the audio frame, its parts do not, and it waits in the part
   buffer for the next segment.
   */
  lemma {:induction false} AudioLeftBehind(vc: Codec, ac: Codec, v: Frame, a: Frame, w: Frame)
    requires v.track == Video && a.track == Audio && w.track == Video && w.isKeyframe
    ensures var t := Run(Settings(0.0, 0.0, true), VideoAudioVideo(vc, ac, v, a, w));
      && |t.cuts| == 1 && t.cuts[0].left == [SampleOf(a)] == t.state.part.audio
      && SamplesIn(t.cuts[0].segment.data, 2) == TimedAll([SampleOf(a)])
      && CarriedByParts(t.cuts[0].parts, 2) == []
  {
    hide Observe, SamplesIn;
    var settings := Settings(0.0, 0.0, true);
    var t2 := Observe(Observe(Run(settings, []), SetVideoConfig(vc)), SetAudioConfig(ac));
    RunOfFive(settings, SetVideoConfig(vc), SetAudioConfig(ac), Push(v), Push(a), Push(w));
    FirstKeyFrame(vc, ac, v);
    var t3 := Observe(t2, Push(v));
    AudioFrame(t3, v, a);
    var t4 := Observe(t3, Push(a));
    SecondKeyFrame(t4, a, w);
    assert t4.openParts[..0] == [];
  }

  lemma {:induction false} ZeroCutsPart(s: State, f: Frame)
    requires s.settings.llHls && s.settings.partDuration == 0.0 && s.part.video != [] && f.track == Audio
    ensures PushFrame(s, f).1.parts != [] && PushFrame(s, f).1.segment.None?
  {
    hide Tracks, TotalDuration, TimedBuffer;
  }

  lemma {:induction false} ZeroCutsSegment(s: State, f: Frame)
    requires s.settings.segmentDuration == 0.0 && s.current.video != [] && f.track == Video && f.isKeyframe
    ensures PushFrame(s, f).1.segment.Some?
  {
    hide CutSegment, CutPart;
  }
}
