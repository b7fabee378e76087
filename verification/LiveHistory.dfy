/**
 The live stream over time: a URI never changes its meaning, the playlist's header describes the
 segments under it, and a blocking reload that returns is answered by what it asked for.
 */
module LiveHistory {
  import opened Wrappers
  import opened Decimal
  import opened Segmenter
  import opened Conservation
  import opened LiveStream
  import opened LiveSystem
  import opened Playlist
  import opened LiveServer

  /** `t` is a state the stream `s` can be in later. */
  ghost predicate Later(s: Stream, t: Stream) {
    && s.nextSequence <= t.nextSequence
    && (s.init.Some? ==> t.init == s.init)
    && (forall g | g in t.segments && g.sequence < s.nextSequence :: g in s.segments)
    && (s.nextSequence == t.nextSequence ==> s.currentParts <= t.currentParts)
    && (forall g | g in t.segments && g.sequence == s.nextSequence ::
          forall p | p in g.parts :: p.index >= |s.currentParts|)
  }

  lemma {:induction false} LaterTransitive(a: Stream, b: Stream, c: Stream)
    requires Later(a, b) && Later(b, c) && Consecutive(b) && Consecutive(c)
    ensures Later(a, c)
  {
  }

  lemma {:induction false} LaterClosing(s: Stream, g: Segment, t: Stream)
    requires Consecutive(s) && s.nextSequence == g.sequence
    requires forall p | p in g.parts :: p.index >= |s.currentParts|
    requires var b := Buffered(s, g);
      t.segments == b.segments && t.nextSequence == b.nextSequence && t.currentParts == b.currentParts
    requires s.init.Some? ==> t.init == s.init
    ensures Later(s, t)
  {
  }

  lemma {:induction false} LaterStep(y: System, a: Action)
    requires Inv(y)
    ensures Later(y.stream, Next(y, a).stream)
  {
    hide Step, Apply;
    match a {
      case Feed(e) => LaterFeed(y.segmenter, y.stream, e);
      case _ =>
    }
  }

  lemma {:induction false} LaterFeed(seg: State, s: Stream, e: Event)
    requires InStep(seg, s)
    ensures Later(s, Apply(s, Step(seg, e).1))
  {
    hide PushFrame, Apply, Buffered, Later, Consecutive;
    var o := Step(seg, e).1;
    if e.Push? {
      PushFacts(seg, e.frame);
      ApplyContent(s, o);
      var s0 := if o.init.Some? then s.(init := o.init) else s;
      if o.segment.Some? {
        SameContent(Apply(s, o), Buffered(s0, o.segment.value));
        BufferedIgnoresInit(s, s0, o.segment.value);
        LaterClosing(s, o.segment.value, Apply(s, o));
      } else {
        LaterContinuing(s, s0, o.parts, Apply(s, o));
      }
    } else {
      ApplyNothing(s);
      LaterReflexive(s);
    }
  }

  lemma {:induction false} SameContent(a: Stream, b: Stream)
    requires Content(a) == Content(b)
    ensures a.segments == b.segments && a.currentParts == b.currentParts
    ensures a.nextSequence == b.nextSequence && a.init == b.init
  {
  }

  lemma {:induction false} BufferedIgnoresInit(s: Stream, s0: Stream, g: Segment)
    requires s0 == s.(init := s0.init)
    ensures Buffered(s0, g) == Buffered(s, g).(init := s0.init)
  {
  }

  lemma {:induction false} LaterContinuing(s: Stream, s0: Stream, parts: seq<Part>, t: Stream)
    requires Consecutive(s)
    requires s0 == s.(init := s0.init) && (s.init.Some? ==> s0.init == s.init)
    requires Content(t) == Content(s0.(currentParts := s0.currentParts + parts))
    ensures Later(s, t)
  {
  }

  lemma {:induction false} LaterRun(settings: Settings, maxSegments: nat, actions: seq<Action>, more: seq<Action>)
    ensures Later(Exec(Start(settings, maxSegments), actions).stream,
                  Exec(Start(settings, maxSegments), actions + more).stream)
  {
    hide Next, Start, Later;
    var y0 := Start(settings, maxSegments);
    if more == [] {
      assert actions + more == actions;
      EveryRun(settings, maxSegments, actions);
      LaterReflexive(Exec(y0, actions).stream);
    } else {
      var front, a := more[..|more| - 1], more[|more| - 1];
      LaterRun(settings, maxSegments, actions, front);
      assert (actions + more)[..|actions + more| - 1] == actions + front;
      EveryRun(settings, maxSegments, actions + front);
      EveryRun(settings, maxSegments, actions + more);
      var y1 := Exec(y0, actions + front);
      assert Exec(y0, actions + more) == Next(y1, a);
      LaterStep(y1, a);
      LaterTransitive(Exec(y0, actions).stream, y1.stream, Next(y1, a).stream);
    }
  }

  lemma {:induction false} LaterReflexive(s: Stream)
    requires Consecutive(s)
    ensures Later(s, s)
  {
  }

  lemma {:induction false} SameSegment(s: Stream, t: Stream, n: nat)
    requires Consecutive(s) && Consecutive(t) && Later(s, t)
    requires FindSegment(s.segments, n).Some? && FindSegment(t.segments, n).Some?
    ensures FindSegment(s.segments, n) == FindSegment(t.segments, n)
  {
    if n < s.mediaSequence || n >= s.nextSequence {
      FindsNothing(s.segments, s.mediaSequence, n, 0);
    } else if n < t.mediaSequence || n >= t.nextSequence {
      FindsNothing(t.segments, t.mediaSequence, n, 0);
    } else {
      var i, j := n - s.mediaSequence, n - t.mediaSequence;
      FindsEachSegment(s.segments, s.mediaSequence, i);
      FindsEachSegment(t.segments, t.mediaSequence, j);
      assert t.segments[j] in s.segments;
    }
  }

  lemma {:induction false} FoundIn(ps: seq<Part>, i: nat)
    ensures FindPart(ps, i).Some? ==> FindPart(ps, i).value in ps && FindPart(ps, i).value.index == i
  {
    if ps != [] { FoundIn(ps[1..], i); }
  }

  lemma {:induction false} SamePart(s: Stream, t: Stream, n: nat, i: nat)
    requires Consecutive(s) && Consecutive(t) && Later(s, t)
    requires s.nextSequence == s.currentPartSequence && t.nextSequence == t.currentPartSequence
    requires LookupPart(s, n, i).Some? && LookupPart(t, n, i).Some?
    ensures LookupPart(s, n, i) == LookupPart(t, n, i)
  {
    hide LookupPart;
    if n < s.mediaSequence || n > s.nextSequence {
      PartElsewhere(s, n, i);
    } else if n < t.mediaSequence || n > t.nextSequence {
      PartElsewhere(t, n, i);
    } else if n < s.nextSequence {
      var j, k := n - s.mediaSequence, n - t.mediaSequence;
      PartOfSegment(s, j, i);
      PartOfSegment(t, k, i);
      assert t.segments[k] in s.segments;
    } else {
      PartInProgress(s, i);
      if t.nextSequence == n {
        PartInProgress(t, i);
      } else {
        var k := n - t.mediaSequence;
        PartOfSegment(t, k, i);
        FoundIn(t.segments[k].parts, i);
      }
    }
  }

  /**
   For every run and every continuation of it: if a media path is answered 200 both now and later,
   it is answered with the same bytes both times.  For the life of one stream object a cache may keep
   a segment, a part or the init segment; a stream published again under the same name starts anew.
   */
  lemma {:induction false} UriKeepsItsMeaning(settings: Settings, maxSegments: nat, actions: seq<Action>,
                                             more: seq<Action>, app: string, name: string, path: string)
    requires var now := map[Key(app, name) := Exec(Start(settings, maxSegments), actions).stream];
      var later := map[Key(app, name) := Exec(Start(settings, maxSegments), actions + more).stream];
      && !RoutePath(path).ManifestOf?
      && Serve(now, path).Some? && Serve(now, path).value.status == 200
      && Serve(later, path).Some? && Serve(later, path).value.status == 200
    ensures var now := map[Key(app, name) := Exec(Start(settings, maxSegments), actions).stream];
      var later := map[Key(app, name) := Exec(Start(settings, maxSegments), actions + more).stream];
      Serve(now, path) == Serve(later, path)
  {
    hide RoutePath, Exec, LookupPart, FindSegment;
    var s := Exec(Start(settings, maxSegments), actions).stream;
    var t := Exec(Start(settings, maxSegments), actions + more).stream;
    EveryRun(settings, maxSegments, actions);
    EveryRun(settings, maxSegments, actions + more);
    LaterRun(settings, maxSegments, actions, more);
    match RoutePath(path) {
      case SegmentOf(_, _, n) => SameSegment(s, t, n);
      case PartOf(_, _, n, i) => SamePart(s, t, n, i);
      case _ =>
    }
  }

  // ------------------------------------------------------------------------------------------
  // The header describes the segments under it.

  lemma {:induction false} DurationsListed(base: string, ll: bool, gs: seq<Segment>, bound: real)
    requires forall i | 0 <= i < |gs| :: gs[i].duration <= bound
    ensures forall l | l in AllSegmentLines(base, ll, gs) && l.ExtInf? :: l.duration <= bound
  {
    hide SegmentName, PartName;
    if gs != [] {
      var front, g := gs[..|gs| - 1], gs[|gs| - 1];
      DurationsListed(base, ll, front, bound);
      PartsHaveNoDurations(base, g.sequence, g.parts);
    }
  }

  lemma {:induction false} PartsHaveNoDurations(base: string, n: nat, ps: seq<Part>)
    ensures forall l | l in PartLines(base, n, ps) :: l.PartTag?
  {
    hide PartName;
    if ps != [] { PartsHaveNoDurations(base, n, ps[..|ps| - 1]); }
  }

  /**
   RFC 8216, sections 4.3.3.1 and 4.3.3.2: the target duration printed is the least integer at
   least every EXTINF and the configured duration, and the media sequence printed is the number of
   the first segment listed.
   */
  lemma {:induction false} HeaderDescribesSegments(s: Stream, base: string)
    requires Consecutive(s)
    ensures var lines := Lines(s, base);
      && lines[2].TargetDuration? && lines[3].MediaSequence?
      && (forall l | l in lines && l.ExtInf? :: l.duration <= lines[2].seconds as real)
      && s.settings.segmentDuration <= lines[2].seconds as real
      && (lines[2].seconds > 0 ==>
            || s.settings.segmentDuration > (lines[2].seconds - 1) as real
            || exists i | 0 <= i < |s.segments| :: s.segments[i].duration > (lines[2].seconds - 1) as real)
      && (s.segments != [] ==> lines[3].first == s.segments[0].sequence)
      && (s.segments == [] ==> lines[3].first == s.nextSequence)
  {
    hide TailLines, AllSegmentLines;
    var seconds := CeilToUnsigned(MaxDuration(s.segments, s.settings.segmentDuration));
    TightCeiling(MaxDuration(s.segments, s.settings.segmentDuration));
    DurationsListed(base, s.settings.llHls, s.segments, seconds as real);
    NoExtInfElsewhere(s, base);
    assert forall l :: l in Lines(s, base) ==>
      l in HeadLines(s, base) || l in AllSegmentLines(base, s.settings.llHls, s.segments) || l in TailLines(s, base);
  }

  lemma {:induction false} TightCeiling(x: real)
    ensures x <= CeilToUnsigned(x) as real
    ensures CeilToUnsigned(x) > 0 ==> x > (CeilToUnsigned(x) - 1) as real
  {
  }

  lemma {:induction false} NoExtInfElsewhere(s: Stream, base: string)
    ensures forall l | l in HeadLines(s, base) || l in TailLines(s, base) :: !l.ExtInf?
  {
    PartsHaveNoDurations(base, s.currentPartSequence, s.currentParts);
  }

  // ------------------------------------------------------------------------------------------
  // Blocking reload.

  lemma {:induction false} SegmentIsListed(base: string, ll: bool, gs: seq<Segment>, k: nat)
    requires k < |gs|
    ensures Entry(base + "/" + SegmentName(gs[k].sequence), gs[k].data) in SegmentEntries(base, ll, gs)
  {
    hide SegmentName, PartEntries;
    var front, g := gs[..|gs| - 1], gs[|gs| - 1];
    if k < |front| {
      SegmentIsListed(base, ll, front, k);
    } else {
      var es := SegmentEntry(base, ll, g);
      assert es[|es| - 1] in es;
    }
  }

  lemma {:induction false} PartIsListed(base: string, n: nat, ps: seq<Part>, i: nat)
    requires i < |ps|
    ensures Entry(base + "/" + PartName(n, ps[i].index), ps[i].data) in PartEntries(base, n, ps)
  {
    hide PartName;
    var front, p := ps[..|ps| - 1], ps[|ps| - 1];
    if i < |front| {
      PartIsListed(base, n, front, i);
    } else {
      var es := PartEntries(base, n, ps);
      assert es[|es| - 1] in es;
    }
  }

  /** The playlist lists segment n, or part p of the segment in progress. */
  ghost predicate Lists(s: Stream, base: string, t: Target) {
    || (exists k | 0 <= k < |s.segments| ::
          s.segments[k].sequence == t.msn
          && Entry(base + "/" + SegmentName(t.msn), s.segments[k].data) in Listed(s, base))
    || (exists i | 0 <= i < |s.currentParts| ::
          (t.part.Some? ==> i == t.part.value) && t.msn == s.currentPartSequence
          && Entry(base + "/" + PartName(t.msn, i), s.currentParts[i].data) in Listed(s, base))
  }

  /**
   Section 6.2.5.2 of draft-pantos-hls-rfc8216bis: when a blocking reload has returned, then for as
   long as the stream has not ended, the playlist lists the segment asked for, or the part asked
   for, unless the segment has already left the window.
   */
  lemma {:induction false} ReloadSeesItsTarget(settings: Settings, maxSegments: nat, actions: seq<Action>,
                                              id: nat, base: string)
    requires maxSegments >= 1
    requires var y := Exec(Start(settings, maxSegments), actions);
      id in y.readers && y.readers[id].at.Returned? && !y.stream.ended
    ensures var y := Exec(Start(settings, maxSegments), actions);
      y.readers[id].target.msn < y.stream.mediaSequence || Lists(y.stream, base, y.readers[id].target)
  {
    hide Exec, SegmentName, PartName, SegmentEntries, PartEntries;
    EveryRun(settings, maxSegments, actions);
    var y := Exec(Start(settings, maxSegments), actions);
    var s, t := y.stream, y.readers[id].target;
    if t.msn >= s.mediaSequence {
      AvailableIsListed(y.segmenter, s, base, t);
    }
  }

  lemma {:induction false} AvailableIsListed(seg: State, s: Stream, base: string, t: Target)
    requires InStep(seg, s) && Available(s, t) && t.msn >= s.mediaSequence
    ensures Lists(s, base, t)
  {
    hide SegmentName, PartName, SegmentEntries, PartEntries;
    if t.msn < s.nextSequence {
      var k := t.msn - s.mediaSequence;
      SegmentIsListed(base, s.settings.llHls, s.segments, k);
      assert Entry(base + "/" + SegmentName(t.msn), s.segments[k].data) in Listed(s, base);
    } else {
      var i := if t.part.Some? then t.part.value else 0;
      PartIsListed(base, s.currentPartSequence, s.currentParts, i);
      assert Entry(base + "/" + PartName(t.msn, i), s.currentParts[i].data) in Listed(s, base);
    }
  }
}
