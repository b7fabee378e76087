/**
 The media playlist printed for a live stream and the HTTP handler that serves what it lists.

 `fmt` stands for Rust's `{:.6}`; nothing depends on what it prints.
 */
module Playlist {
  import opened Wrappers
  import opened Decimal
  import opened Segmenter
  import opened Conservation
  import opened LiveStream
  import opened LiveSystem

  // ------------------------------------------------------------------------------------------
  // File names.

  function SegmentName(n: nat): string {
    "seg" + Digits(n) + ".mp4"
  }

  function PartName(n: nat, i: nat): string {
    "seg" + Digits(n) + "_part" + Digits(i) + ".mp4"
  }

  function StripPrefix(s: string, p: string): Option<string> {
    if p <= s then Some(s[|p|..]) else None
  }

  function StripSuffix(s: string, p: string): Option<string> {
    if |p| <= |s| && s[|s| - |p|..] == p then Some(s[..|s| - |p|]) else None
  }

  predicate OccursAt(s: string, p: string, k: nat) {
    k + |p| <= |s| && s[k..k + |p|] == p
  }

  /** Position of the first occurrence of `p`, or None. */
  function Find(s: string, p: string): (r: Option<nat>)
    ensures r.Some? ==> OccursAt(s, p, r.value)
    ensures forall k: nat | OccursAt(s, p, k) :: r.Some? && r.value <= k
  {
    if OccursAt(s, p, 0) then Some(0)
    else if s == [] then None
    else
      assert forall k: nat | OccursAt(s, p, k) :: k > 0 && OccursAt(s[1..], p, k - 1);
      var r := Find(s[1..], p);
      if r.None? then None
      else
        assert s[r.value + 1..r.value + 1 + |p|] == s[1..][r.value..r.value + |p|];
        Some(r.value + 1)
  }

  function Stem(file: string): Option<string> {
    match StripPrefix(file, "seg")
    case None => None
    case Some(t) => StripSuffix(t, ".mp4")
  }

  function ParseSegmentName(file: string): Option<nat> {
    match Stem(file)
    case None => None
    case Some(name) => if '_' in name then None else ParseUnsigned(name, U64_LIMIT)
  }

  function ParsePartName(file: string): Option<(nat, nat)> {
    match Stem(file)
    case None => None
    case Some(name) =>
      var at := Find(name, "_part");
      if at.None? then None
      else
        var seqNumber := ParseUnsigned(name[..at.value], U64_LIMIT);
        var part := ParseUnsigned(name[at.value + 5..], U32_LIMIT);
        if seqNumber.None? || part.None? then None else Some((seqNumber.value, part.value))
  }

  lemma {:induction false} StemOf(name: string)
    ensures Stem("seg" + name + ".mp4") == Some(name)
  {
    var file := "seg" + name + ".mp4";
    assert file[3..] == name + ".mp4";
    var t := name + ".mp4";
    assert t[|t| - 4..] == ".mp4" && t[..|t| - 4] == name;
  }

  /** A printed segment name reads back as its number, and never as a part. */
  lemma {:induction false} SegmentNameRoundTrip(n: nat)
    ensures ParseSegmentName(SegmentName(n)) == if n < U64_LIMIT then Some(n) else None
    ensures ParsePartName(SegmentName(n)) == None
  {
    var d := Digits(n);
    StemOf(d);
    ParsePrinted(n, U64_LIMIT);
    forall k: nat ensures !OccursAt(d, "_part", k) {
      if k + 5 <= |d| { assert d[k..k + 5][0] == d[k] != '_'; }
    }
  }

  /** Digits hold no underscore, so the first "_part" is the printed one. */
  lemma {:induction false} FindPrinted(a: string, b: string)
    requires '_' !in a
    ensures Find(a + "_part" + b, "_part") == Some(|a|)
  {
    hide Find;
    var name := a + "_part" + b;
    assert name[|a|..|a| + 5] == "_part";
    assert OccursAt(name, "_part", |a|);
    forall k: nat | k < |a| ensures !OccursAt(name, "_part", k) {
      if k + 5 <= |name| { assert name[k..k + 5][0] == name[k] == a[k]; }
    }
  }

  lemma {:induction false} PartsOfName(a: string, b: string)
    ensures var name := a + "_part" + b; '_' in name && name[..|a|] == a && name[|a| + 5..] == b
  {
    var name := a + "_part" + b;
    assert name[|a|] == '_';
  }

  /** A printed part name reads back as its two numbers, and never as a segment. */
  lemma {:induction false} PartNameRoundTrip(n: nat, i: nat)
    ensures ParsePartName(PartName(n, i)) == if n < U64_LIMIT && i < U32_LIMIT then Some((n, i)) else None
    ensures ParseSegmentName(PartName(n, i)) == None
  {
    hide Find, Stem, ParseUnsigned;
    var a, b := Digits(n), Digits(i);
    var name := a + "_part" + b;
    assert PartName(n, i) == "seg" + name + ".mp4";
    StemOf(name);
    FindPrinted(a, b);
    PartsOfName(a, b);
    ParsePrinted(n, U64_LIMIT);
    ParsePrinted(i, U32_LIMIT);
  }

  /** No file name at all is both a segment and a part. */
  lemma {:induction false} NeverConfused(file: string)
    ensures ParseSegmentName(file).None? || ParsePartName(file).None?
  {
    hide Find, Stem, ParseUnsigned;
    if Stem(file).Some? {
      var name := Stem(file).value;
      var at := Find(name, "_part");
      if at.Some? { assert name[at.value] == name[at.value..at.value + 5][0]; }
    }
  }

  // ------------------------------------------------------------------------------------------
  // The playlist.

  datatype Line =
    | Header
    | Version(number: nat)
    | TargetDuration(seconds: nat)
    | MediaSequence(first: nat)
    | ServerControl(holdBack: real)
    | PartInf(target: real)
    | MapTag(uri: string)
    | PartTag(duration: real, uri: string, independent: bool)
    | ExtInf(duration: real)
    | SegmentUri(uri: string)
    | PreloadHint(uri: string)
    | EndList

  function BareTag(name: string): string {
    "#" + name + "\n"
  }

  function TagText(name: string, value: string): string {
    "#" + name + ":" + value + "\n"
  }

  function Plain(name: string, value: string): string {
    name + "=" + value
  }

  function Quoted(name: string, value: string): string {
    name + "=\"" + value + "\""
  }

  function Text(l: Line, fmt: real -> string): string {
    match l
    case Header => BareTag("EXTM3U")
    case Version(n) => TagText("EXT-X-VERSION", Digits(n))
    case TargetDuration(n) => TagText("EXT-X-TARGETDURATION", Digits(n))
    case MediaSequence(n) => TagText("EXT-X-MEDIA-SEQUENCE", Digits(n))
    case ServerControl(h) =>
      TagText("EXT-X-SERVER-CONTROL", Plain("CAN-BLOCK-RELOAD", "YES") + "," + Plain("PART-HOLD-BACK", fmt(h)))
    case PartInf(d) => TagText("EXT-X-PART-INF", Plain("PART-TARGET", fmt(d)))
    case MapTag(uri) => TagText("EXT-X-MAP", Quoted("URI", uri))
    case PartTag(d, uri, independent) =>
      TagText("EXT-X-PART", Plain("DURATION", fmt(d)) + "," + Quoted("URI", uri)
                            + if independent then "," + Plain("INDEPENDENT", "YES") else "")
    case ExtInf(d) => TagText("EXTINF", fmt(d) + ",")
    case SegmentUri(uri) => uri + "\n"
    case PreloadHint(uri) => TagText("EXT-X-PRELOAD-HINT", Plain("TYPE", "PART") + "," + Quoted("URI", uri))
    case EndList => BareTag("EXT-X-ENDLIST")
  }

  function Render(lines: seq<Line>, fmt: real -> string): string {
    if lines == [] then "" else Render(lines[..|lines| - 1], fmt) + Text(lines[|lines| - 1], fmt)
  }

  function MaxDuration(segments: seq<Segment>, start: real): (r: real)
    ensures r >= start && forall i | 0 <= i < |segments| :: r >= segments[i].duration
    ensures r == start || exists i | 0 <= i < |segments| :: r == segments[i].duration
  {
    if segments == [] then start
    else
      var front, last := segments[..|segments| - 1], segments[|segments| - 1];
      var m := MaxDuration(front, start);
      assert forall i | 0 <= i < |front| :: front[i] == segments[i];
      if last.duration > m then last.duration else m
  }

  /** `x.ceil() as u64` for values that fit. */
  function CeilToUnsigned(x: real): nat {
    if x <= 0.0 then 0 else -((-x).Floor)
  }

  function PartLine(base: string, n: nat, p: Part): Line {
    PartTag(p.duration, base + "/" + PartName(n, p.index), p.independent)
  }

  function PartLines(base: string, n: nat, ps: seq<Part>): seq<Line> {
    if ps == [] then [] else PartLines(base, n, ps[..|ps| - 1]) + [PartLine(base, n, ps[|ps| - 1])]
  }

  function SegmentLines(base: string, ll: bool, g: Segment): seq<Line> {
    (if ll then PartLines(base, g.sequence, g.parts) else [])
    + [ExtInf(g.duration), SegmentUri(base + "/" + SegmentName(g.sequence))]
  }

  function AllSegmentLines(base: string, ll: bool, gs: seq<Segment>): seq<Line> {
    if gs == [] then []
    else AllSegmentLines(base, ll, gs[..|gs| - 1]) + SegmentLines(base, ll, gs[|gs| - 1])
  }

  function HeadLines(s: Stream, base: string): seq<Line> {
    [Header, Version(if s.settings.llHls then 9 else 7),
     TargetDuration(CeilToUnsigned(MaxDuration(s.segments, s.settings.segmentDuration))),
     MediaSequence(s.mediaSequence)]
    + (if s.settings.llHls
       then [ServerControl(s.settings.partDuration * 3.0), PartInf(s.settings.partDuration)] else [])
    + (if s.init.Some? then [MapTag(base + "/init.mp4")] else [])
  }

  function TailLines(s: Stream, base: string): seq<Line> {
    (if s.settings.llHls && s.currentParts != []
     then PartLines(base, s.currentPartSequence, s.currentParts)
          + [PreloadHint(base + "/" + PartName(s.currentPartSequence, |s.currentParts|))]
     else [])
    + (if s.ended then [EndList] else [])
  }

  function Lines(s: Stream, base: string): seq<Line> {
    HeadLines(s, base) + AllSegmentLines(base, s.settings.llHls, s.segments) + TailLines(s, base)
  }

  lemma {:induction false} RenderConcat(a: seq<Line>, b: seq<Line>, fmt: real -> string)
    ensures Render(a + b, fmt) == Render(a, fmt) + Render(b, fmt)
  {
    hide Text;
    if b == [] {
      assert a + b == a;
    } else {
      var n := |b| - 1;
      RenderConcat(a, b[..n], fmt);
      assert (a + b)[..|a + b| - 1] == a + b[..n];
    }
  }

  lemma {:induction false} RenderSnoc(a: seq<Line>, l: Line, fmt: real -> string)
    ensures Render(a + [l], fmt) == Render(a, fmt) + Text(l, fmt)
  {
  }

  method AppendParts(playlist: string, base: string, n: nat, ps: seq<Part>, fmt: real -> string)
    returns (r: string)
    ensures r == playlist + Render(PartLines(base, n, ps), fmt)
  {
    hide Text, PartLine;
    r := playlist;
    for i := 0 to |ps|
      invariant r == playlist + Render(PartLines(base, n, ps[..i]), fmt)
    {
      assert ps[..i + 1][..i] == ps[..i];
      RenderSnoc(PartLines(base, n, ps[..i]), PartLine(base, n, ps[i]), fmt);
      r := r + Text(PartLine(base, n, ps[i]), fmt);
    }
    assert ps[..|ps|] == ps;
  }

  method AppendSegment(playlist: string, base: string, ll: bool, g: Segment, fmt: real -> string)
    returns (r: string)
    ensures r == playlist + Render(SegmentLines(base, ll, g), fmt)
  {
    hide Text, SegmentName;
    r := playlist;
    ghost var lines := [];
    if ll {
      r := AppendParts(r, base, g.sequence, g.parts, fmt);
      lines := PartLines(base, g.sequence, g.parts);
    }
    var inf, uri := ExtInf(g.duration), SegmentUri(base + "/" + SegmentName(g.sequence));
    RenderSnoc(lines, inf, fmt);
    RenderSnoc(lines + [inf], uri, fmt);
    assert SegmentLines(base, ll, g) == lines + [inf] + [uri];
    r := r + Text(inf, fmt);
    r := r + Text(uri, fmt);
  }

  method AppendSegments(playlist: string, base: string, ll: bool, gs: seq<Segment>, fmt: real -> string)
    returns (r: string)
    ensures r == playlist + Render(AllSegmentLines(base, ll, gs), fmt)
  {
    hide Text, SegmentLines, Render, AllSegmentLines;
    r := playlist;
    NoSegmentLines(playlist, base, ll, gs, fmt);
    for i := 0 to |gs|
      invariant r == playlist + Render(AllSegmentLines(base, ll, gs[..i]), fmt)
    {
      OneMoreSegment(base, ll, gs, i, fmt);
      ghost var before := Render(AllSegmentLines(base, ll, gs[..i]), fmt);
      Associative(playlist, before, Render(SegmentLines(base, ll, gs[i]), fmt));
      r := AppendSegment(r, base, ll, gs[i], fmt);
    }
    assert gs[..|gs|] == gs;
  }

  lemma {:induction false} NoSegmentLines(playlist: string, base: string, ll: bool, gs: seq<Segment>,
                                          fmt: real -> string)
    ensures playlist + Render(AllSegmentLines(base, ll, gs[..0]), fmt) == playlist
  {
  }

  lemma {:induction false} OneMoreSegment(base: string, ll: bool, gs: seq<Segment>, i: nat, fmt: real -> string)
    requires i < |gs|
    ensures Render(AllSegmentLines(base, ll, gs[..i + 1]), fmt)
         == Render(AllSegmentLines(base, ll, gs[..i]), fmt) + Render(SegmentLines(base, ll, gs[i]), fmt)
  {
    hide Text, SegmentLines, Render;
    assert gs[..i + 1][..i] == gs[..i];
    RenderConcat(AllSegmentLines(base, ll, gs[..i]), SegmentLines(base, ll, gs[i]), fmt);
  }

  method MaxSegmentDuration(gs: seq<Segment>, start: real) returns (m: real)
    ensures m == MaxDuration(gs, start)
  {
    m := start;
    for i := 0 to |gs|
      invariant m == MaxDuration(gs[..i], start)
    {
      assert gs[..i + 1][..i] == gs[..i];
      if gs[i].duration > m { m := gs[i].duration; }
    }
    assert gs[..|gs|] == gs;
  }

  method Append(playlist: string, ghost lines: seq<Line>, l: Line, fmt: real -> string)
    returns (r: string, ghost next: seq<Line>)
    requires playlist == Render(lines, fmt)
    ensures next == lines + [l] && r == Render(next, fmt)
  {
    hide Text;
    RenderSnoc(lines, l, fmt);
    r, next := playlist + Text(l, fmt), lines + [l];
  }

  method GenerateHead(s: Stream, base: string, fmt: real -> string) returns (playlist: string)
    ensures playlist == Render(HeadLines(s, base), fmt)
  {
    hide Render;
    playlist := "";
    ghost var lines := [];
    assert playlist == Render(lines, fmt) by { RenderEmpty(fmt); }
    var longest := MaxSegmentDuration(s.segments, s.settings.segmentDuration);
    playlist, lines := Append(playlist, lines, Header, fmt);
    playlist, lines := Append(playlist, lines, Version(if s.settings.llHls then 9 else 7), fmt);
    playlist, lines := Append(playlist, lines, TargetDuration(CeilToUnsigned(longest)), fmt);
    playlist, lines := Append(playlist, lines, MediaSequence(s.mediaSequence), fmt);
    if s.settings.llHls {
      playlist, lines := Append(playlist, lines, ServerControl(s.settings.partDuration * 3.0), fmt);
      playlist, lines := Append(playlist, lines, PartInf(s.settings.partDuration), fmt);
    }
    if s.init.Some? {
      playlist, lines := Append(playlist, lines, MapTag(base + "/init.mp4"), fmt);
    }
    assert HeadLines(s, base) == lines;
  }

  lemma RenderEmpty(fmt: real -> string)
    ensures Render([], fmt) == ""
  {
  }

  method AppendTail(before: string, s: Stream, base: string, fmt: real -> string) returns (playlist: string)
    ensures playlist == before + Render(TailLines(s, base), fmt)
  {
    hide Text, PartName, Render, PartLines;
    playlist := before;
    ghost var lines := [];
    RenderEmpty(fmt);
    if s.settings.llHls && s.currentParts != [] {
      playlist := AppendParts(playlist, base, s.currentPartSequence, s.currentParts, fmt);
      var hint := PreloadHint(base + "/" + PartName(s.currentPartSequence, |s.currentParts|));
      lines := PartLines(base, s.currentPartSequence, s.currentParts);
      RenderSnoc(lines, hint, fmt);
      playlist := playlist + Text(hint, fmt);
      lines := lines + [hint];
    }
    if s.ended {
      RenderSnoc(lines, EndList, fmt);
      playlist := playlist + Text(EndList, fmt);
      lines := lines + [EndList];
    }
    assert TailLines(s, base) == lines;
  }

  /** `generate_live_manifest`: the text is the rendering of the playlist's lines. */
  method GenerateLiveManifest(s: Stream, base: string, fmt: real -> string) returns (playlist: string)
    ensures playlist == Render(Lines(s, base), fmt)
  {
    hide HeadLines, TailLines, Text;
    var ll := s.settings.llHls;
    RenderConcat(HeadLines(s, base), AllSegmentLines(base, ll, s.segments), fmt);
    RenderConcat(HeadLines(s, base) + AllSegmentLines(base, ll, s.segments), TailLines(s, base), fmt);
    playlist := GenerateHead(s, base, fmt);
    playlist := AppendSegments(playlist, base, ll, s.segments, fmt);
    playlist := AppendTail(playlist, s, base, fmt);
  }
}
