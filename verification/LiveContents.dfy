/**
 The stream and its playlist as a function of what was fed: the ring is the newest segments the
 frames led to, a player reading the playlist finds exactly them, and a blocking reload returns when
 the playlist it would get has what was asked for.
 */
module LiveContents {
  import opened Wrappers
  import opened Decimal
  import opened Segmenter
  import opened Conservation
  import opened LiveStream
  import opened LiveSystem
  import opened Playlist

  // ------------------------------------------------------------------------------------------
  // The stream is the run of the frames fed.

  function Fed(actions: seq<Action>): seq<Event> {
    if actions == [] then []
    else
      Fed(actions[..|actions| - 1])
      + if actions[|actions| - 1].Feed? then [actions[|actions| - 1].event] else []
  }

  function SegmentsOf(cuts: seq<Cut>): (r: seq<Segment>)
    ensures |r| == |cuts|
  {
    seq(|cuts|, i requires 0 <= i < |cuts| => cuts[i].segment)
  }

  function PartsOf(parts: seq<PartCut>): (r: seq<Part>)
    ensures |r| == |parts|
  {
    seq(|parts|, i requires 0 <= i < |parts| => parts[i].part)
  }

  /** The stream holds the newest segments that fit, and the parts of the segment in progress. */
  ghost predicate Shows(s: Stream, t: Trace) {
    var drop := Excess(|t.cuts|, s.maxSegments);
    && s.segments == SegmentsOf(t.cuts)[drop..] && s.mediaSequence == drop
    && s.nextSequence == s.currentPartSequence == |t.cuts|
    && s.currentParts == PartsOf(t.openParts)
  }

  lemma {:induction false} RingGrows(s: Stream, t: Trace, c: Cut)
    requires Shows(s, t)
    ensures Shows(Buffered(s, c.segment), t.(cuts := t.cuts + [c], openParts := []))
  {
    hide SegmentsOf;
    var drop, more := Excess(|t.cuts|, s.maxSegments), Excess(|s.segments| + 1, s.maxSegments);
    SegmentsSnoc(t.cuts, c);
    DroppedTwice(SegmentsOf(t.cuts), c.segment, drop, more);
    assert PartsOf([]) == [];
  }

  lemma {:induction false} SegmentsSnoc(cuts: seq<Cut>, c: Cut)
    ensures SegmentsOf(cuts + [c]) == SegmentsOf(cuts) + [c.segment]
  {
  }

  lemma {:induction false} DroppedTwice<T>(s: seq<T>, x: T, a: nat, b: nat)
    requires a <= |s| && a + b <= |s| + 1
    ensures (s[a..] + [x])[b..] == (s + [x])[a + b..]
  {
  }

  lemma {:induction false} FeedShows(s: Stream, t: Trace, e: Event)
    requires Shows(s, t) && InStep(t.state, s)
    ensures Shows(Apply(s, Step(t.state, e).1), Observe(t, e))
    ensures Observe(t, e).state == Step(t.state, e).0
  {
    hide PushFrame, Apply, WellCut, TrailingPart, Consecutive, Buffered;
    var o := Step(t.state, e).1;
    assert PartCuts([], t.state, t.seen) == [] && t.openParts + [] == t.openParts;
    if e.Push? {
      PushFacts(t.state, e.frame);
      ApplyContent(s, o);
      var s0 := if o.init.Some? then s.(init := o.init) else s;
      if o.segment.Some? {
        var g := o.segment.value;
        RingGrows(s0, t, CutOf(t, g, t.openParts + PartCuts(g.parts, t.state, t.seen)));
      } else {
        assert PartsOf(t.openParts + PartCuts(o.parts, t.state, t.seen)) == PartsOf(t.openParts) + o.parts;
      }
    } else {
      ApplyNothing(s);
    }
  }

  /**
   In every run of ingest and readers, whatever the readers do, the stream shows what the frames fed
   so far led to; it is ended if and only if the end of the stream came.
   */
  lemma {:induction false} StreamIsRun(settings: Settings, maxSegments: nat, actions: seq<Action>)
    ensures var y, t := Exec(Start(settings, maxSegments), actions), Run(settings, Fed(actions));
      && y.segmenter == t.state && Shows(y.stream, t) && y.stream.maxSegments == maxSegments
      && y.stream.settings == settings && (y.stream.ended <==> EndStream in actions)
  {
    hide Shows, Inv, Next;
    if actions == [] {
      NothingShown(settings, maxSegments);
    } else {
      var front, a := actions[..|actions| - 1], actions[|actions| - 1];
      var y := Exec(Start(settings, maxSegments), front);
      StreamIsRun(settings, maxSegments, front);
      EveryRun(settings, maxSegments, front);
      EveryRun(settings, maxSegments, actions);
      StepShows(settings, y, Fed(front), a);
      StepEnds(y, a);
      assert actions == front + [a];
    }
  }

  lemma {:induction false} NothingShown(settings: Settings, maxSegments: nat)
    ensures Shows(Start(settings, maxSegments).stream, Run(settings, []))
  {
  }

  lemma {:induction false} StepShows(settings: Settings, y: System, events: seq<Event>, a: Action)
    requires Inv(y) && y.segmenter == Run(settings, events).state && Shows(y.stream, Run(settings, events))
    ensures var fed := events + if a.Feed? then [a.event] else [];
      Next(y, a).segmenter == Run(settings, fed).state && Shows(Next(y, a).stream, Run(settings, fed))
  {
    hide Run, Apply, Observe, PushFrame;
    var t := Run(settings, events);
    if a.Feed? {
      assert InStep(t.state, y.stream);
      FeedShows(y.stream, t, a.event);
      RunMore(settings, events, a.event);
    } else {
      assert events + [] == events;
    }
  }

  lemma {:induction false} RunMore(settings: Settings, events: seq<Event>, e: Event)
    ensures Run(settings, events + [e]) == Observe(Run(settings, events), e)
  {
    hide Observe;
    assert (events + [e])[..|events|] == events;
  }

  lemma {:induction false} StepEnds(y: System, a: Action)
    requires Inv(y)
    ensures Next(y, a).stream.settings == y.stream.settings
    ensures Next(y, a).stream.ended <==> y.stream.ended || a == EndStream
  {
    hide PushFrame, Apply;
    if a.Feed? {
      if a.event.Push? {
        PushFacts(y.segmenter, a.event.frame);
        ApplyContent(y.stream, Step(y.segmenter, a.event).1);
      } else {
        ApplyNothing(y.stream);
      }
    }
  }

  // ------------------------------------------------------------------------------------------
  // A player reads the playlist line by line.

  datatype Item = Item(uri: string, duration: real, independent: bool)

  datatype Entry = Entry(uri: string, duration: Option<real>, items: seq<Item>)

  /** What a player knows: the header, the segments with their parts, and the parts after the last one. */
  datatype Client = Client(
    version: nat,
    target: nat,
    first: nat,
    holdBack: Option<real>,
    partTarget: Option<real>,
    initUri: Option<string>,
    entries: seq<Entry>,
    duration: Option<real>,
    items: seq<Item>,
    hint: Option<string>,
    ended: bool)

  const BLANK := Client(1, 0, 0, None, None, None, [], None, [], None, false)

  /** A segment's URI takes the duration and the parts read since the one before it. */
  function Take(c: Client, l: Line): Client {
    match l
    case Header => c
    case Version(n) => c.(version := n)
    case TargetDuration(n) => c.(target := n)
    case MediaSequence(n) => c.(first := n)
    case ServerControl(h) => c.(holdBack := Some(h))
    case PartInf(d) => c.(partTarget := Some(d))
    case MapTag(uri) => c.(initUri := Some(uri))
    case PartTag(d, uri, independent) => c.(items := c.items + [Item(uri, d, independent)])
    case ExtInf(d) => c.(duration := Some(d))
    case SegmentUri(uri) =>
      c.(entries := c.entries + [Entry(uri, c.duration, c.items)], duration := None, items := [])
    case PreloadHint(uri) => c.(hint := Some(uri))
    case EndList => c.(ended := true)
  }

  function Read(c: Client, lines: seq<Line>): Client {
    if lines == [] then c else Take(Read(c, lines[..|lines| - 1]), lines[|lines| - 1])
  }

  lemma {:induction false} ReadConcat(c: Client, a: seq<Line>, b: seq<Line>)
    ensures Read(c, a + b) == Read(Read(c, a), b)
  {
    hide Take;
    if b == [] {
      assert a + b == a;
    } else {
      ReadConcat(c, a, b[..|b| - 1]);
      assert (a + b)[..|a + b| - 1] == a + b[..|b| - 1];
    }
  }

  lemma {:induction false} ReadOne(c: Client, l: Line)
    ensures Read(c, [l]) == Take(c, l)
  {
    assert [l][..0] == [];
  }

  function SegmentAt(base: string, n: nat): string {
    base + "/seg" + Digits(n) + ".mp4"
  }

  function PartAt(base: string, n: nat, i: nat): string {
    base + "/seg" + Digits(n) + "_part" + Digits(i) + ".mp4"
  }

  lemma {:induction false} Located(base: string, n: nat, i: nat)
    ensures base + "/" + SegmentName(n) == SegmentAt(base, n)
    ensures base + "/" + PartName(n, i) == PartAt(base, n, i)
  {
  }

  function Items(base: string, n: nat, ps: seq<Part>): (r: seq<Item>)
    ensures |r| == |ps|
  {
    seq(|ps|, i requires 0 <= i < |ps| => Item(PartAt(base, n, ps[i].index), ps[i].duration, ps[i].independent))
  }

  function EntryOf(base: string, ll: bool, g: Segment): Entry {
    Entry(SegmentAt(base, g.sequence), Some(g.duration), if ll then Items(base, g.sequence, g.parts) else [])
  }

  function Entries(base: string, ll: bool, gs: seq<Segment>): (r: seq<Entry>)
    ensures |r| == |gs|
  {
    seq(|gs|, i requires 0 <= i < |gs| => EntryOf(base, ll, gs[i]))
  }

  lemma {:induction false} ReadParts(c: Client, base: string, n: nat, ps: seq<Part>)
    ensures Read(c, PartLines(base, n, ps)) == c.(items := c.items + Items(base, n, ps))
  {
    hide PartName, PartAt, Items, Read;
    if ps == [] {
      NoItems(base, n);
      ReadNothing(c);
      assert c.items + [] == c.items;
    } else {
      var front, p := ps[..|ps| - 1], ps[|ps| - 1];
      var item := Item(PartAt(base, n, p.index), p.duration, p.independent);
      ReadParts(c, base, n, front);
      Located(base, n, p.index);
      ItemsSnoc(base, n, ps);
      Associative(c.items, Items(base, n, front), [item]);
      ReadConcat(c, PartLines(base, n, front), [PartLine(base, n, p)]);
      ReadOne(Read(c, PartLines(base, n, front)), PartLine(base, n, p));
    }
  }

  lemma {:induction false} NoItems(base: string, n: nat)
    ensures Items(base, n, []) == []
  {
  }

  lemma {:induction false} ItemsSnoc(base: string, n: nat, ps: seq<Part>)
    requires ps != []
    ensures var p := ps[|ps| - 1];
      Items(base, n, ps)
      == Items(base, n, ps[..|ps| - 1]) + [Item(PartAt(base, n, p.index), p.duration, p.independent)]
  {
    hide PartAt;
  }

  lemma {:induction false} ReadSegment(c: Client, base: string, ll: bool, g: Segment)
    requires c.items == [] && c.duration == None
    ensures Read(c, SegmentLines(base, ll, g)) == c.(entries := c.entries + [EntryOf(base, ll, g)])
  {
    hide PartName, SegmentName, PartAt, SegmentAt, Read, PartLines;
    var parts := if ll then PartLines(base, g.sequence, g.parts) else [];
    var inf, uri := ExtInf(g.duration), SegmentUri(base + "/" + SegmentName(g.sequence));
    Located(base, g.sequence, 0);
    ReadParts(c, base, g.sequence, g.parts);
    ReadNothing(c);
    assert c.items + Items(base, g.sequence, g.parts) == Items(base, g.sequence, g.parts);
    assert SegmentLines(base, ll, g) == parts + [inf] + [uri];
    ReadConcat(c, parts + [inf], [uri]);
    ReadConcat(c, parts, [inf]);
    ReadOne(Read(c, parts), inf);
    ReadOne(Read(c, parts + [inf]), uri);
  }

  lemma {:induction false} ReadNothing(c: Client)
    ensures Read(c, []) == c
  {
  }

  lemma {:induction false} ReadSegments(c: Client, base: string, ll: bool, gs: seq<Segment>)
    requires c.items == [] && c.duration == None
    ensures Read(c, AllSegmentLines(base, ll, gs)) == c.(entries := c.entries + Entries(base, ll, gs))
  {
    hide SegmentLines, EntryOf;
    if gs == [] {
      assert c.entries + Entries(base, ll, gs) == c.entries;
    } else {
      var front, g := gs[..|gs| - 1], gs[|gs| - 1];
      ReadSegments(c, base, ll, front);
      ReadConcat(c, AllSegmentLines(base, ll, front), SegmentLines(base, ll, g));
      ReadSegment(Read(c, AllSegmentLines(base, ll, front)), base, ll, g);
      assert c.entries + Entries(base, ll, gs) == c.entries + Entries(base, ll, front) + [EntryOf(base, ll, g)];
    }
  }

  /** What a player should know of the stream. */
  function Told(s: Stream, base: string): Client {
    var ll := s.settings.llHls;
    Client(
      if ll then 9 else 7,
      CeilToUnsigned(MaxDuration(s.segments, s.settings.segmentDuration)),
      s.mediaSequence,
      if ll then Some(3.0 * s.settings.partDuration) else None,
      if ll then Some(s.settings.partDuration) else None,
      if s.init.Some? then Some(base + "/init.mp4") else None,
      Entries(base, ll, s.segments),
      None,
      if ll then Items(base, s.currentPartSequence, s.currentParts) else [],
      if ll && s.currentParts != [] then Some(PartAt(base, s.currentPartSequence, |s.currentParts|)) else None,
      s.ended)
  }

  lemma {:induction false} ReadHead(s: Stream, base: string)
    ensures var c := Read(BLANK, HeadLines(s, base));
      && c == Told(s, base).(entries := c.entries, items := c.items, hint := c.hint, ended := c.ended)
      && c.entries == [] && c.items == [] && c.hint == None && !c.ended
  {
    hide Read, CeilToUnsigned, MaxDuration, Items, Entries, PartAt;
    var l1, l2 := Version(if s.settings.llHls then 9 else 7),
      TargetDuration(CeilToUnsigned(MaxDuration(s.segments, s.settings.segmentDuration)));
    var l3, ll := MediaSequence(s.mediaSequence), s.settings.llHls;
    var l4, l5 := ServerControl(s.settings.partDuration * 3.0), PartInf(s.settings.partDuration);
    var four := Read4(BLANK, Header, l1, l2, l3);
    var six := if ll then Take(Take(four, l4), l5) else four;
    var head := [Header, l1, l2, l3];
    var middle := if ll then [l4, l5] else [];
    var last := if s.init.Some? then [MapTag(base + "/init.mp4")] else [];
    assert HeadLines(s, base) == head + middle + last;
    ReadConcat(BLANK, head + middle, last);
    ReadConcat(BLANK, head, middle);
    ReadNothing(four);
    ReadNothing(six);
    if ll { ReadTwo(four, l4, l5); }
    if s.init.Some? { ReadOne(six, MapTag(base + "/init.mp4")); }
  }

  lemma {:induction false} Read4(c: Client, a: Line, b: Line, d: Line, e: Line) returns (r: Client)
    ensures r == Read(c, [a, b, d, e]) == Take(Take(Take(Take(c, a), b), d), e)
  {
    hide Take, Read;
    ReadTwo(c, a, b);
    ReadTwo(Read(c, [a, b]), d, e);
    assert [a, b, d, e] == [a, b] + [d, e];
    ReadConcat(c, [a, b], [d, e]);
    r := Read(c, [a, b, d, e]);
  }

  lemma {:induction false} ReadTwo(c: Client, a: Line, b: Line)
    ensures Read(c, [a, b]) == Take(Take(c, a), b)
  {
    hide Take, Read;
    assert [a, b] == [a] + [b];
    ReadConcat(c, [a], [b]);
    ReadOne(c, a);
    ReadOne(Take(c, a), b);
  }

  lemma {:induction false} ReadTail(c: Client, s: Stream, base: string)
    requires c.items == [] && c.hint == None && !c.ended
    ensures var all := Told(s, base);
      Read(c, TailLines(s, base)) == c.(items := all.items, hint := all.hint, ended := all.ended)
  {
    hide Read, CeilToUnsigned, MaxDuration, Entries, PartAt, PartName, PartLines;
    var n, parts := s.currentPartSequence, s.currentParts;
    var hint := PreloadHint(base + "/" + PartName(n, |parts|));
    var listed := if s.settings.llHls && parts != [] then PartLines(base, n, parts) + [hint] else [];
    var end := if s.ended then [EndList] else [];
    ReadConcat(c, listed, end);
    ReadNothing(c);
    ReadNothing(Read(c, listed));
    ReadOne(Read(c, listed), EndList);
    if s.settings.llHls && parts != [] {
      Located(base, n, |parts|);
      ReadParts(c, base, n, parts);
      ReadConcat(c, PartLines(base, n, parts), [hint]);
      ReadOne(Read(c, PartLines(base, n, parts)), hint);
      assert c.items + Items(base, n, parts) == Items(base, n, parts);
    }
  }

  /** Reading the playlist gives back everything the stream has to tell, and nothing else. */
  lemma {:induction false} ReadBack(s: Stream, base: string)
    ensures Read(BLANK, Lines(s, base)) == Told(s, base)
  {
    hide Read, HeadLines, TailLines, AllSegmentLines, CeilToUnsigned, MaxDuration, Items, Entries, PartAt;
    var head, middle := HeadLines(s, base), AllSegmentLines(base, s.settings.llHls, s.segments);
    ReadConcat(BLANK, head + middle, TailLines(s, base));
    ReadConcat(BLANK, head, middle);
    ReadHead(s, base);
    var c := Read(BLANK, head);
    ReadSegments(c, base, s.settings.llHls, s.segments);
    assert c.entries + Entries(base, s.settings.llHls, s.segments) == Entries(base, s.settings.llHls, s.segments);
    ReadTail(Read(c, middle), s, base);
  }

  /**
   After every run, the player's entries are the newest segments the frames led to, under their own
   numbers and with their own durations; the parts after them are those of the segment in progress, and
   the hint names the part that comes next.
   */
  lemma {:induction false} PlaylistIsRun(settings: Settings, maxSegments: nat, actions: seq<Action>, base: string)
    ensures
      var t := Run(settings, Fed(actions));
      var c := Read(BLANK, Lines(Exec(Start(settings, maxSegments), actions).stream, base));
      var drop := Excess(|t.cuts|, maxSegments);
      && c.first == drop && |c.entries| == |t.cuts| - drop
      && (forall i | 0 <= i < |c.entries| ::
            && c.entries[i].uri == SegmentAt(base, drop + i)
            && c.entries[i].duration == Some(t.cuts[drop + i].segment.duration))
      && |c.items| == |t.openParts|
      && (forall i | 0 <= i < |c.items| ::
            c.items[i] == Item(PartAt(base, |t.cuts|, i), t.openParts[i].part.duration,
                               t.openParts[i].part.independent))
      && c.hint == (if t.openParts == [] then None else Some(PartAt(base, |t.cuts|, |t.openParts|)))
      && (c.ended <==> EndStream in actions)
  {
    hide Read, Lines, Run, Exec, SegmentAt, PartAt, CeilToUnsigned, MaxDuration;
    var y, t := Exec(Start(settings, maxSegments), actions), Run(settings, Fed(actions));
    StreamIsRun(settings, maxSegments, actions);
    EveryRun(settings, maxSegments, actions);
    assert InStep(y.segmenter, y.stream);
    ReadBack(y.stream, base);
  }

  /** The hint is kept: the next part listed in the same segment is the one hinted at. */
  lemma {:induction false} HintIsKept(settings: Settings, maxSegments: nat, actions: seq<Action>, e: Event,
                                      base: string)
    ensures
      var y := Exec(Start(settings, maxSegments), actions);
      var c, c1 := Read(BLANK, Lines(y.stream, base)), Read(BLANK, Lines(Next(y, Feed(e)).stream, base));
      c.hint.Some? && |c1.items| > |c.items| ==> c1.items[|c.items|].uri == c.hint.value
  {
    hide Read, Lines, Run, SegmentAt, PartAt, PushFrame, Next;
    var more, t := actions + [Feed(e)], Run(settings, Fed(actions));
    PlaylistIsRun(settings, maxSegments, actions, base);
    PlaylistIsRun(settings, maxSegments, more, base);
    assert more[..|actions|] == actions;
    assert Fed(more) == Fed(actions) + [e];
    RunMore(settings, Fed(actions), e);
    StreamIsRun(settings, maxSegments, actions);
    EveryRun(settings, maxSegments, actions);
    SegmentOrParts(t, e);
  }

  lemma {:induction false} SegmentOrParts(t: Trace, e: Event)
    requires t.state.segmentParts == []
    ensures Observe(t, e).openParts == [] || |Observe(t, e).cuts| == |t.cuts|
  {
    hide PushFrame;
    if e.Push? { PushFacts(t.state, e.frame); }
  }

  // ------------------------------------------------------------------------------------------
  // A blocking reload returns when the playlist has what it asked for.

  /** The playlist lists the segment asked for, or the part; any part of it if none was named. */
  ghost predicate Prints(lines: seq<Line>, base: string, t: Target) {
    || SegmentUri(SegmentAt(base, t.msn)) in lines
    || exists d: real, p: nat, independent: bool ::
         (t.part == None || t.part == Some(p)) && PartTag(d, PartAt(base, t.msn, p), independent) in lines
  }

  lemma {:induction false} SameDigits(a: nat, b: nat)
    requires Digits(a) == Digits(b)
    ensures a == b
  {
    ValueOfDigits(a);
    ValueOfDigits(b);
  }

  lemma {:induction false} SameSegmentAt(base: string, a: nat, b: nat)
    requires SegmentAt(base, a) == SegmentAt(base, b)
    ensures a == b
  {
    var u, v := SegmentAt(base, a), SegmentAt(base, b);
    assert u[|base| + 4..|u| - 4] == Digits(a) && v[|base| + 4..|v| - 4] == Digits(b);
    SameDigits(a, b);
  }

  lemma {:induction false} SamePartAt(base: string, a: nat, i: nat, b: nat, j: nat)
    requires PartAt(base, a, i) == PartAt(base, b, j)
    ensures a == b && i == j
  {
    hide Find;
    var u, v := PartAt(base, a, i), PartAt(base, b, j);
    var x, y := Digits(a) + "_part" + Digits(i), Digits(b) + "_part" + Digits(j);
    assert u[|base| + 4..|u| - 4] == x && v[|base| + 4..|v| - 4] == y;
    FindPrinted(Digits(a), Digits(i));
    FindPrinted(Digits(b), Digits(j));
    PartsOfName(Digits(a), Digits(i));
    PartsOfName(Digits(b), Digits(j));
    SameDigits(a, b);
    SameDigits(i, j);
  }

  /** The lines of parts are the parts'. */
  lemma {:induction false} PartLinesAre(base: string, n: nat, ps: seq<Part>, l: Line)
    ensures l in PartLines(base, n, ps) <==> exists i | 0 <= i < |ps| :: l == PartLine(base, n, ps[i])
  {
    hide PartLine;
    if ps != [] {
      var front := ps[..|ps| - 1];
      PartLinesAre(base, n, front, l);
      if i :| 0 <= i < |ps| && l == PartLine(base, n, ps[i]) {
        if i < |front| { assert front[i] == ps[i]; }
      }
    }
  }

  lemma {:induction false} SegmentLinesAre(base: string, ll: bool, gs: seq<Segment>, l: Line)
    ensures l in AllSegmentLines(base, ll, gs)
            <==> exists i | 0 <= i < |gs| :: l in SegmentLines(base, ll, gs[i])
  {
    hide SegmentLines;
    if gs != [] {
      var front := gs[..|gs| - 1];
      SegmentLinesAre(base, ll, front, l);
      if i :| 0 <= i < |gs| && l in SegmentLines(base, ll, gs[i]) {
        if i < |front| { assert front[i] == gs[i]; }
      }
    }
  }

  /** Only the segments of the ring are printed. */
  lemma {:induction false} SegmentPrinted(s: Stream, base: string, n: nat)
    ensures SegmentUri(SegmentAt(base, n)) in Lines(s, base)
            <==> exists i | 0 <= i < |s.segments| :: s.segments[i].sequence == n
  {
    hide SegmentAt, SegmentName, PartName, PartLines, AllSegmentLines, MaxDuration, CeilToUnsigned;
    var l, ll := SegmentUri(SegmentAt(base, n)), s.settings.llHls;
    PartLinesAre(base, s.currentPartSequence, s.currentParts, l);
    assert l !in HeadLines(s, base) && l !in TailLines(s, base);
    SegmentLinesAre(base, ll, s.segments, l);
    forall i | 0 <= i < |s.segments|
      ensures l in SegmentLines(base, ll, s.segments[i]) <==> s.segments[i].sequence == n
    {
      OwnUri(base, ll, s.segments[i], n);
    }
  }

  lemma {:induction false} OwnUri(base: string, ll: bool, g: Segment, n: nat)
    ensures SegmentUri(SegmentAt(base, n)) in SegmentLines(base, ll, g) <==> g.sequence == n
  {
    hide SegmentAt, SegmentName, PartName, PartLines;
    PartLinesAre(base, g.sequence, g.parts, SegmentUri(SegmentAt(base, n)));
    Located(base, g.sequence, 0);
    if SegmentAt(base, n) == SegmentAt(base, g.sequence) { SameSegmentAt(base, n, g.sequence); }
  }

  /** A part printed under number n belongs to segment n, in the ring or in progress. */
  lemma {:induction false} PartPrinted(s: Stream, base: string, l: Line, n: nat, p: nat)
    requires l.PartTag? && l.uri == PartAt(base, n, p) && l in Lines(s, base)
    ensures || (exists i | 0 <= i < |s.segments| :: s.segments[i].sequence == n)
            || (n == s.currentPartSequence && exists i | 0 <= i < |s.currentParts| :: s.currentParts[i].index == p)
  {
    hide PartAt, SegmentName, PartName, PartLines, AllSegmentLines, MaxDuration, CeilToUnsigned;
    var ll := s.settings.llHls;
    assert l !in HeadLines(s, base);
    if l in TailLines(s, base) {
      PartLinesAre(base, s.currentPartSequence, s.currentParts, l);
      var i :| 0 <= i < |s.currentParts| && l == PartLine(base, s.currentPartSequence, s.currentParts[i]);
      Located(base, s.currentPartSequence, s.currentParts[i].index);
      SamePartAt(base, n, p, s.currentPartSequence, s.currentParts[i].index);
    } else {
      SegmentLinesAre(base, ll, s.segments, l);
      var i :| 0 <= i < |s.segments| && l in SegmentLines(base, ll, s.segments[i]);
      var g := s.segments[i];
      PartLinesAre(base, g.sequence, g.parts, l);
      var k :| 0 <= k < |g.parts| && l == PartLine(base, g.sequence, g.parts[k]);
      Located(base, g.sequence, g.parts[k].index);
      SamePartAt(base, n, p, g.sequence, g.parts[k].index);
    }
  }

  /** Every part in progress is printed when parts are printed at all. */
  lemma {:induction false} OpenPartPrinted(s: Stream, base: string, p: nat)
    requires s.settings.llHls && p < |s.currentParts| && s.currentParts[p].index == p
    ensures Prints(Lines(s, base), base, Target(s.currentPartSequence, Some(p)))
    ensures Prints(Lines(s, base), base, Target(s.currentPartSequence, None))
  {
    hide PartAt, SegmentName, PartName, PartLines, AllSegmentLines, MaxDuration, CeilToUnsigned;
    var n, part := s.currentPartSequence, s.currentParts[p];
    var l := PartLine(base, n, part);
    PartLinesAre(base, n, s.currentParts, l);
    Located(base, n, p);
    assert l == PartTag(part.duration, PartAt(base, n, p), part.independent);
    assert l in TailLines(s, base);
  }

  lemma {:induction false} ReadyIfPrinted(s: Stream, base: string, t: Target)
    requires Consecutive(s) && s.nextSequence == s.currentPartSequence
    requires Prints(Lines(s, base), base, t)
    ensures Available(s, t)
  {
    hide PartAt, SegmentAt, Lines;
    SegmentPrinted(s, base, t.msn);
    if SegmentUri(SegmentAt(base, t.msn)) !in Lines(s, base) {
      var d: real, p: nat, independent: bool :|
        (t.part == None || t.part == Some(p)) && PartTag(d, PartAt(base, t.msn, p), independent) in Lines(s, base);
      PartPrinted(s, base, PartTag(d, PartAt(base, t.msn, p), independent), t.msn, p);
    }
  }

  lemma {:induction false} PrintedIfReady(seg: State, s: Stream, base: string, t: Target)
    requires InStep(seg, s) && Available(s, t) && t.msn >= s.mediaSequence
    ensures Prints(Lines(s, base), base, t)
  {
    hide PartAt, SegmentAt, Lines;
    SegmentPrinted(s, base, t.msn);
    if t.msn < s.nextSequence {
      assert s.segments[t.msn - s.mediaSequence].sequence == t.msn;
    } else {
      var p := if t.part.Some? then t.part.value else 0;
      OpenPartPrinted(s, base, p);
      assert t == Target(s.currentPartSequence, t.part);
    }
  }

  /**
   In every run, for every target: a reload returns at once if and only if the playlist lists what it
   asks for, the segment it asks for was already dropped from the ring, or the stream ended.  A ring of
   size zero drops every segment as it closes and lets no reload return for it.
   */
  lemma {:induction false} ReadyIffPrinted(settings: Settings, maxSegments: nat, actions: seq<Action>,
                                           base: string, t: Target)
    ensures var y := Exec(Start(settings, maxSegments), actions);
      var lines := Lines(y.stream, base);
      Ready(y.stream, t) <==>
        || EndStream in actions
        || (maxSegments >= 1 && t.msn < Read(BLANK, lines).first)
        || Prints(lines, base, t)
  {
    hide PartAt, SegmentAt, Lines, Prints, Run, Read, Exec;
    var y := Exec(Start(settings, maxSegments), actions);
    var s := y.stream;
    StreamIsRun(settings, maxSegments, actions);
    EveryRun(settings, maxSegments, actions);
    PlaylistIsRun(settings, maxSegments, actions, base);
    assert InStep(y.segmenter, s);
    if Prints(Lines(s, base), base, t) { ReadyIfPrinted(s, base, t); }
    if Available(s, t) && t.msn >= s.mediaSequence { PrintedIfReady(y.segmenter, s, base, t); }
  }

  /**
   A reader that waits while the playlist lists its target, or while the stream is over, was signalled;
   with a ring of at least one segment, a signalled one waits for nothing else.
   */
  lemma {:induction false} SignalledIffPrinted(settings: Settings, maxSegments: nat, actions: seq<Action>,
                                               base: string, id: nat)
    requires id in Exec(Start(settings, maxSegments), actions).readers
    requires Exec(Start(settings, maxSegments), actions).readers[id].at.Waiting?
    ensures var y := Exec(Start(settings, maxSegments), actions);
      var lines, t := Lines(y.stream, base), y.readers[id].target;
      var answered := EndStream in actions || Prints(lines, base, t) || t.msn < Read(BLANK, lines).first;
      var signalled := y.readers[id].at.channel in y.stream.signals;
      && (EndStream in actions || Prints(lines, base, t) ==> signalled)
      && (maxSegments >= 1 ==> (signalled <==> answered))
  {
    hide Lines, Prints, Read, Exec, Ready;
    var y := Exec(Start(settings, maxSegments), actions);
    NoLostWakeup(settings, maxSegments, actions, id);
    ReadyIffPrinted(settings, maxSegments, actions, base, y.readers[id].target);
  }

  function ProgressOf(y: System, id: nat): Option<Progress> {
    if id in y.readers then Some(y.readers[id].at) else None
  }

  /** The steps a reload can take next, and where each takes it. */
  ghost predicate Follows(y: System, id: nat, answered: bool) {
    match ProgressOf(y, id)
    case None => false
    case Some(at) =>
      match at
      case Arrived => ProgressOf(Next(y, ReadCheck(id)), id) == Some(if answered then Returned else Checked)
      case Checked =>
        ProgressOf(Next(y, Register(id)), id) == Some(if answered then Returned else Waiting(|y.stream.channels|))
      case Waiting(c) =>
        && ProgressOf(Next(y, Wake(id)), id) == Some(if answered then Returned else at)
        && ProgressOf(Next(y, Timeout(id)), id) == Some(if answered then at else TimedOut)
      case Returned => true
      case TimedOut => true
  }

  /**
   The life of a reload against the playlist, for a ring of at least one segment: its first look returns
   if the playlist answers it, and so does its second, under the write lock; otherwise it waits, and it is
   woken once the playlist answers it and times out only as long as it does not.
   */
  lemma {:induction false} ReloadFollowsPlaylist(settings: Settings, maxSegments: nat, actions: seq<Action>,
                                                 base: string, id: nat)
    requires maxSegments >= 1 && id in Exec(Start(settings, maxSegments), actions).readers
    ensures var y := Exec(Start(settings, maxSegments), actions);
      var lines, q := Lines(y.stream, base), y.readers[id];
      var answered := EndStream in actions || Prints(lines, base, q.target) || q.target.msn < Read(BLANK, lines).first;
      && Follows(y, id, answered)
      && (q.at.Returned? ==> answered)
  {
    hide Lines, Prints, Read, Exec, Ready, Next, Follows;
    var y := Exec(Start(settings, maxSegments), actions);
    ReadyIffPrinted(settings, maxSegments, actions, base, y.readers[id].target);
    StillReady(settings, maxSegments, actions, id);
    ReaderMoves(y, id);
    if y.readers[id].at.Waiting? { SignalledIffPrinted(settings, maxSegments, actions, base, id); }
  }

  lemma {:induction false} StillReady(settings: Settings, maxSegments: nat, actions: seq<Action>, id: nat)
    requires maxSegments >= 1 && id in Exec(Start(settings, maxSegments), actions).readers
    ensures var y := Exec(Start(settings, maxSegments), actions);
      y.readers[id].at.Returned? ==> Ready(y.stream, y.readers[id].target)
  {
    hide Exec, Ready;
    EveryRun(settings, maxSegments, actions);
  }

  lemma {:induction false} ReaderMoves(y: System, id: nat)
    requires id in y.readers
    ensures
      var at := y.readers[id].at;
      Follows(y, id, if at.Waiting? then at.channel in y.stream.signals else Ready(y.stream, y.readers[id].target))
  {
    hide Ready;
  }
}
