/**
 `serve_live_request`: routing of live paths and the lookups behind them, and its agreement with
 the playlist: whatever is printed is served, with exactly the bytes that were meant.
 */
module LiveServer {
  import opened Wrappers
  import opened Decimal
  import opened Segmenter
  import opened Conservation
  import opened LiveStream
  import opened LiveSystem
  import opened Playlist

  datatype Route =
    | ManifestOf(app: string, name: string)
    | InitOf(app: string, name: string)
    | SegmentOf(app: string, name: string, number: nat)
    | PartOf(app: string, name: string, number: nat, index: nat)
    | NotLive

  function RouteFile(app: string, name: string, file: string): Route {
    if file == "init.mp4" then InitOf(app, name)
    else if ParseSegmentName(file).Some? then SegmentOf(app, name, ParseSegmentName(file).value)
    else if ParsePartName(file).Some?
    then PartOf(app, name, ParsePartName(file).value.0, ParsePartName(file).value.1)
    else NotLive
  }

  /** `splitn(3, '/')` after the "/live/" prefix, then the file name. */
  function RoutePath(path: string): Route {
    match StripPrefix(path, "/live/")
    case None => NotLive
    case Some(rest) =>
      var slash := Find(rest, "/");
      if slash.None? then NotLive
      else
        var app, tail := rest[..slash.value], rest[slash.value + 1..];
        var second := Find(tail, "/");
        if second.Some? then RouteFile(app, tail[..second.value], tail[second.value + 1..])
        else match StripSuffix(tail, ".m3u8")
             case Some(name) => ManifestOf(app, name)
             case None => NotLive
  }

  datatype Body = Bytes(media: Media) | Manifest(lines: seq<Line>) | Message(text: string)

  datatype Response = Response(status: nat, body: Body, cacheControl: string)

  function FindSegment(gs: seq<Segment>, n: nat): Option<Segment> {
    if gs == [] then None else if gs[0].sequence == n then Some(gs[0]) else FindSegment(gs[1..], n)
  }

  function FindPart(ps: seq<Part>, i: nat): Option<Part> {
    if ps == [] then None else if ps[0].index == i then Some(ps[0]) else FindPart(ps[1..], i)
  }

  function FindCompletedPart(gs: seq<Segment>, n: nat, i: nat): Option<Part> {
    if gs == [] then None
    else if gs[0].sequence == n && FindPart(gs[0].parts, i).Some? then FindPart(gs[0].parts, i)
    else FindCompletedPart(gs[1..], n, i)
  }

  /** Completed segments first, then the segment in progress. */
  function LookupPart(s: Stream, n: nat, i: nat): Option<Part> {
    var done := FindCompletedPart(s.segments, n, i);
    if done.Some? then done
    else if n == s.currentPartSequence then FindPart(s.currentParts, i)
    else None
  }

  function SegmentResponse(s: Stream, n: nat): Response {
    match FindSegment(s.segments, n)
    case Some(g) => Response(200, Bytes(g.data), "max-age=3600")
    case None => Response(404, Message("segment not found"), "no-cache")
  }

  function PartResponse(s: Stream, n: nat, i: nat): Response {
    match LookupPart(s, n, i)
    case Some(p) => Response(200, Bytes(p.data), "max-age=1")
    case None => Response(404, Message("part not found"), "no-cache")
  }

  function InitResponse(s: Stream): Response {
    match s.init
    case Some(m) => Response(200, Bytes(m), "max-age=86400")
    case None => Response(404, Message("init segment not ready"), "no-cache")
  }

  function Base(app: string, name: string): string {
    "/live/" + app + "/" + name
  }

  function Key(app: string, name: string): string {
    app + "/" + name
  }

  /** Streams of different names have different keys, since an app's name has no slash. */
  lemma {:induction false} KeysDiffer(app: string, name: string, app': string, name': string)
    requires NoSlash(app) && NoSlash(app') && Key(app, name) == Key(app', name')
    ensures app == app' && name == name'
  {
    hide Find;
    FindSlash(app, name);
    FindSlash(app', name');
  }

  /** A request without a blocking wait; None hands the path on to the ordinary proxy. */
  function Serve(store: map<string, Stream>, path: string): Option<Response> {
    var route := RoutePath(path);
    if route.NotLive? || Key(route.app, route.name) !in store then None
    else
      var s := store[Key(route.app, route.name)];
      match route
      case ManifestOf(app, name) => Some(Response(200, Manifest(Lines(s, Base(app, name))), "no-cache, no-store"))
      case InitOf(_, _) => Some(InitResponse(s))
      case SegmentOf(_, _, n) => Some(SegmentResponse(s, n))
      case PartOf(_, _, n, i) => Some(PartResponse(s, n, i))
  }

  // ------------------------------------------------------------------------------------------
  // The lookup loops.

  method ServeSegment(s: Stream, n: nat) returns (r: Response)
    ensures r == SegmentResponse(s, n)
  {
    for i := 0 to |s.segments|
      invariant FindSegment(s.segments, n) == FindSegment(s.segments[i..], n)
    {
      var g := s.segments[i];
      if g.sequence == n {
        return Response(200, Bytes(g.data), "max-age=3600");
      }
    }
    return Response(404, Message("segment not found"), "no-cache");
  }

  method FindPartLoop(ps: seq<Part>, i: nat) returns (r: Option<Part>)
    ensures r == FindPart(ps, i)
  {
    for k := 0 to |ps|
      invariant FindPart(ps, i) == FindPart(ps[k..], i)
    {
      if ps[k].index == i {
        return Some(ps[k]);
      }
    }
    return None;
  }

  method ServePart(s: Stream, n: nat, i: nat) returns (r: Response)
    ensures r == PartResponse(s, n, i)
  {
    for k := 0 to |s.segments|
      invariant FindCompletedPart(s.segments, n, i) == FindCompletedPart(s.segments[k..], n, i)
    {
      if s.segments[k].sequence == n {
        var p := FindPartLoop(s.segments[k].parts, i);
        if p.Some? {
          return Response(200, Bytes(p.value.data), "max-age=1");
        }
      }
    }
    if n == s.currentPartSequence {
      var p := FindPartLoop(s.currentParts, i);
      if p.Some? {
        return Response(200, Bytes(p.value.data), "max-age=1");
      }
    }
    return Response(404, Message("part not found"), "no-cache");
  }

  // ------------------------------------------------------------------------------------------
  // Routing of printed URIs.

  predicate NoSlash(s: string) {
    '/' !in s
  }

  lemma {:induction false} FindSlash(a: string, b: string)
    requires NoSlash(a)
    ensures Find(a + "/" + b, "/") == Some(|a|)
    ensures (a + "/" + b)[..|a|] == a && (a + "/" + b)[|a| + 1..] == b
  {
    var s := a + "/" + b;
    assert OccursAt(s, "/", |a|);
    forall k: nat | k < |a| ensures !OccursAt(s, "/", k) {
      assert s[k..k + 1][0] == s[k] == a[k];
    }
  }

  lemma {:induction false} FindNoSlash(a: string)
    requires NoSlash(a)
    ensures Find(a, "/") == None
  {
    forall k: nat ensures !OccursAt(a, "/", k) {
      if k + 1 <= |a| { assert a[k..k + 1][0] == a[k]; }
    }
  }

  lemma {:induction false} Stripped(p: string, s: string)
    ensures StripPrefix(p + s, p) == Some(s) && StripSuffix(s + p, p) == Some(s)
  {
  }

  lemma {:induction false} Reassociate(a: string, b: string, c: string, d: string, e: string)
    ensures a + b + c + d + e == a + (b + c + (d + e))
  {
  }

  lemma {:induction false} RoutePrinted(app: string, name: string, file: string)
    requires NoSlash(app) && NoSlash(name)
    ensures RoutePath(Base(app, name) + "/" + file) == RouteFile(app, name, file)
  {
    hide RouteFile, Find, StripPrefix, StripSuffix;
    var tail := name + "/" + file;
    assert Base(app, name) + "/" + file == "/live/" + (app + "/" + tail) by {
      Reassociate("/live/", app, "/", name, "/" + file);
      assert name + ("/" + file) == tail;
      assert Base(app, name) + ("/" + file) == Base(app, name) + "/" + file;
    }
    Stripped("/live/", app + "/" + tail);
    FindSlash(app, tail);
    FindSlash(name, file);
  }

  lemma {:induction false} RouteManifest(app: string, name: string)
    requires NoSlash(app) && NoSlash(name)
    ensures RoutePath(Base(app, name) + ".m3u8") == ManifestOf(app, name)
  {
    hide RouteFile, Find, StripPrefix, StripSuffix;
    var tail := name + ".m3u8";
    Reassociate("/live/", app, "/", name, ".m3u8");
    Stripped("/live/", app + "/" + tail);
    Stripped(".m3u8", name);
    FindSlash(app, tail);
    assert NoSlash(tail) by { NoSlashConcat(name, ".m3u8"); }
    FindNoSlash(tail);
  }

  lemma {:induction false} NoSlashConcat(a: string, b: string)
    requires NoSlash(a) && NoSlash(b)
    ensures NoSlash(a + b)
  {
  }

  lemma {:induction false} RouteNames(app: string, name: string, n: nat, i: nat)
    requires n < U64_LIMIT && i < U32_LIMIT
    ensures RouteFile(app, name, SegmentName(n)) == SegmentOf(app, name, n)
    ensures RouteFile(app, name, PartName(n, i)) == PartOf(app, name, n, i)
    ensures RouteFile(app, name, "init.mp4") == InitOf(app, name)
  {
    SegmentNameRoundTrip(n);
    PartNameRoundTrip(n, i);
    assert SegmentName(n)[0] == 's' && PartName(n, i)[0] == 's' && "init.mp4"[0] == 'i';
  }

  // ------------------------------------------------------------------------------------------
  // Lookups on a consistent stream.

  lemma {:induction false} FindsEachSegment(gs: seq<Segment>, first: nat, k: nat)
    requires forall i | 0 <= i < |gs| :: gs[i].sequence == first + i
    requires k < |gs|
    ensures FindSegment(gs, first + k) == Some(gs[k])
    ensures forall i :: FindCompletedPart(gs, first + k, i) == FindPart(gs[k].parts, i)
  {
    if k == 0 {
      forall i ensures FindCompletedPart(gs, first, i) == FindPart(gs[0].parts, i) {
        FindsNothing(gs[1..], first + 1, first, i);
      }
    } else {
      FindsEachSegment(gs[1..], first + 1, k - 1);
    }
  }

  lemma {:induction false} FindsNothing(gs: seq<Segment>, first: nat, n: nat, i: nat)
    requires forall j | 0 <= j < |gs| :: gs[j].sequence == first + j
    requires n < first || n >= first + |gs|
    ensures FindSegment(gs, n) == None && FindCompletedPart(gs, n, i) == None
  {
    if gs != [] { FindsNothing(gs[1..], first + 1, n, i); }
  }

  lemma {:induction false} FindsEachPart(ps: seq<Part>, first: nat, i: nat)
    requires forall j | 0 <= j < |ps| :: ps[j].index == first + j
    ensures FindPart(ps, i) == if first <= i < first + |ps| then Some(ps[i - first]) else None
  {
    if ps != [] { FindsEachPart(ps[1..], first + 1, i); }
  }

  lemma {:induction false} PartOfSegment(s: Stream, k: nat, i: nat)
    requires Consecutive(s) && s.nextSequence == s.currentPartSequence && k < |s.segments|
    ensures LookupPart(s, s.mediaSequence + k, i) == FindPart(s.segments[k].parts, i)
  {
    FindsEachSegment(s.segments, s.mediaSequence, k);
  }

  lemma {:induction false} PartInProgress(s: Stream, i: nat)
    requires Consecutive(s) && s.nextSequence == s.currentPartSequence
    ensures LookupPart(s, s.nextSequence, i) == if i < |s.currentParts| then Some(s.currentParts[i]) else None
  {
    FindsNothing(s.segments, s.mediaSequence, s.nextSequence, i);
    FindsEachPart(s.currentParts, 0, i);
  }

  lemma {:induction false} PartElsewhere(s: Stream, n: nat, i: nat)
    requires Consecutive(s) && s.nextSequence == s.currentPartSequence
    requires n < s.mediaSequence || n > s.nextSequence
    ensures LookupPart(s, n, i) == None
  {
    FindsNothing(s.segments, s.mediaSequence, n, i);
  }

  // ------------------------------------------------------------------------------------------
  // What the playlist lists, and that it is served.

  /** A URI and the bytes it stands for. */
  datatype Entry = Entry(uri: string, media: Media)

  function PartEntries(base: string, n: nat, ps: seq<Part>): seq<Entry> {
    if ps == [] then []
    else PartEntries(base, n, ps[..|ps| - 1])
         + [Entry(base + "/" + PartName(n, ps[|ps| - 1].index), ps[|ps| - 1].data)]
  }

  function SegmentEntry(base: string, ll: bool, g: Segment): seq<Entry> {
    (if ll then PartEntries(base, g.sequence, g.parts) else [])
    + [Entry(base + "/" + SegmentName(g.sequence), g.data)]
  }

  function SegmentEntries(base: string, ll: bool, gs: seq<Segment>): seq<Entry> {
    if gs == [] then []
    else SegmentEntries(base, ll, gs[..|gs| - 1]) + SegmentEntry(base, ll, gs[|gs| - 1])
  }

  function Listed(s: Stream, base: string): seq<Entry> {
    (if s.init.Some? then [Entry(base + "/init.mp4", s.init.value)] else [])
    + SegmentEntries(base, s.settings.llHls, s.segments)
    + (if s.settings.llHls then PartEntries(base, s.currentPartSequence, s.currentParts) else [])
  }

  /** The URIs a player may request; preload hints announce what does not exist yet. */
  function UriOf(l: Line): seq<string> {
    if l.MapTag? || l.PartTag? || l.SegmentUri? then [l.uri] else []
  }

  function UrisOf(lines: seq<Line>): seq<string> {
    if lines == [] then [] else UrisOf(lines[..|lines| - 1]) + UriOf(lines[|lines| - 1])
  }

  function EntryUris(es: seq<Entry>): (r: seq<string>)
    ensures |r| == |es|
  {
    seq(|es|, i requires 0 <= i < |es| => es[i].uri)
  }

  lemma {:induction false} UrisConcat(a: seq<Line>, b: seq<Line>)
    ensures UrisOf(a + b) == UrisOf(a) + UrisOf(b)
  {
    hide UriOf;
    if b == [] {
      assert a + b == a;
    } else {
      UrisConcat(a, b[..|b| - 1]);
      assert (a + b)[..|a + b| - 1] == a + b[..|b| - 1];
    }
  }

  lemma {:induction false} PartUris(base: string, n: nat, ps: seq<Part>)
    ensures UrisOf(PartLines(base, n, ps)) == EntryUris(PartEntries(base, n, ps))
  {
    hide PartName, UrisOf, EntryUris;
    if ps == [] {
      NoEntries();
    } else {
      var front, p := ps[..|ps| - 1], ps[|ps| - 1];
      var entry := Entry(base + "/" + PartName(n, p.index), p.data);
      PartUris(base, n, front);
      UrisConcat(PartLines(base, n, front), [PartLine(base, n, p)]);
      EntriesConcat(PartEntries(base, n, front), [entry]);
      OneUri(PartLine(base, n, p));
      OneEntry(entry);
    }
  }

  lemma {:induction false} EntriesConcat(a: seq<Entry>, b: seq<Entry>)
    ensures EntryUris(a + b) == EntryUris(a) + EntryUris(b)
  {
  }

  lemma {:induction false} SegmentUri1(base: string, ll: bool, g: Segment)
    ensures UrisOf(SegmentLines(base, ll, g)) == EntryUris(SegmentEntry(base, ll, g))
  {
    hide PartName, SegmentName, UrisOf, EntryUris, PartLines, PartEntries;
    var uri := base + "/" + SegmentName(g.sequence);
    var parts := if ll then PartLines(base, g.sequence, g.parts) else [];
    var entries := if ll then PartEntries(base, g.sequence, g.parts) else [];
    assert SegmentLines(base, ll, g) == parts + [ExtInf(g.duration)] + [SegmentUri(uri)];
    UrisConcat(parts + [ExtInf(g.duration)], [SegmentUri(uri)]);
    UrisConcat(parts, [ExtInf(g.duration)]);
    OneUri(ExtInf(g.duration));
    OneUri(SegmentUri(uri));
    EntriesConcat(entries, [Entry(uri, g.data)]);
    OneEntry(Entry(uri, g.data));
    assert UrisOf(parts) == EntryUris(entries) by {
      if ll { PartUris(base, g.sequence, g.parts); } else { NoEntries(); }
    }
  }

  lemma {:induction false} NoEntries()
    ensures UrisOf([]) == EntryUris([])
  {
  }

  lemma {:induction false} OneEntry(e: Entry)
    ensures EntryUris([e]) == [e.uri]
  {
  }

  lemma {:induction false} SegmentUris(base: string, ll: bool, gs: seq<Segment>)
    ensures UrisOf(AllSegmentLines(base, ll, gs)) == EntryUris(SegmentEntries(base, ll, gs))
  {
    hide SegmentEntry, SegmentLines, UrisOf, EntryUris;
    if gs == [] {
      NoEntries();
    } else {
      var front, g := gs[..|gs| - 1], gs[|gs| - 1];
      SegmentUris(base, ll, front);
      SegmentUri1(base, ll, g);
      UrisConcat(AllSegmentLines(base, ll, front), SegmentLines(base, ll, g));
      EntriesConcat(SegmentEntries(base, ll, front), SegmentEntry(base, ll, g));
    }
  }

  lemma {:induction false} OneUri(l: Line)
    ensures UrisOf([l]) == UriOf(l)
  {
  }

  lemma {:induction false} HeadUris(s: Stream, base: string)
    ensures UrisOf(HeadLines(s, base)) == if s.init.Some? then [base + "/init.mp4"] else []
  {
    var a := [Header, Version(if s.settings.llHls then 9 else 7),
              TargetDuration(CeilToUnsigned(MaxDuration(s.segments, s.settings.segmentDuration))),
              MediaSequence(s.mediaSequence)];
    var b := if s.settings.llHls
             then [ServerControl(s.settings.partDuration * 3.0), PartInf(s.settings.partDuration)] else [];
    var c := if s.init.Some? then [MapTag(base + "/init.mp4")] else [];
    assert HeadLines(s, base) == a + b + c;
    UrisConcat(a + b, c);
    UrisConcat(a, b);
    NoUris(a);
    NoUris(b);
    if s.init.Some? { OneUri(c[0]); }
  }

  lemma {:induction false} NoUris(lines: seq<Line>)
    requires forall l | l in lines :: UriOf(l) == []
    ensures UrisOf(lines) == []
  {
    if lines != [] {
      NoUris(lines[..|lines| - 1]);
      assert lines[|lines| - 1] in lines;
    }
  }

  lemma {:induction false} TailUris(s: Stream, base: string)
    ensures UrisOf(TailLines(s, base))
         == EntryUris(if s.settings.llHls then PartEntries(base, s.currentPartSequence, s.currentParts) else [])
  {
    hide PartName, UrisOf, EntryUris, PartLines, PartEntries;
    var end := if s.ended then [EndList] else [];
    assert forall l | l in end :: UriOf(l) == [];
    NoUris(end);
    if s.settings.llHls && s.currentParts != [] {
      var parts := PartLines(base, s.currentPartSequence, s.currentParts);
      var hint := PreloadHint(base + "/" + PartName(s.currentPartSequence, |s.currentParts|));
      assert TailLines(s, base) == parts + [hint] + end;
      UrisConcat(parts + [hint], end);
      UrisConcat(parts, [hint]);
      OneUri(hint);
      PartUris(base, s.currentPartSequence, s.currentParts);
    } else {
      assert TailLines(s, base) == end;
      NoEntries();
      NoUris([]);
      assert s.settings.llHls ==> PartEntries(base, s.currentPartSequence, s.currentParts) == [] by {
        NoPartEntries(base, s.currentPartSequence);
      }
    }
  }

  lemma {:induction false} NoPartEntries(base: string, n: nat)
    ensures PartEntries(base, n, []) == []
  {
  }

  /** The URIs printed are exactly the listed entries, in order. */
  lemma {:induction false} PrintedIsListed(s: Stream, base: string)
    ensures UrisOf(Lines(s, base)) == EntryUris(Listed(s, base))
  {
    hide HeadLines, TailLines, UrisOf, EntryUris, AllSegmentLines, SegmentEntries, PartEntries;
    var ll := s.settings.llHls;
    var head, mid, tail := HeadLines(s, base), AllSegmentLines(base, ll, s.segments), TailLines(s, base);
    UrisConcat(head + mid, tail);
    UrisConcat(head, mid);
    HeadUris(s, base);
    SegmentUris(base, ll, s.segments);
    TailUris(s, base);
    var init := if s.init.Some? then [Entry(base + "/init.mp4", s.init.value)] else [];
    var current := if ll then PartEntries(base, s.currentPartSequence, s.currentParts) else [];
    EntriesConcat(init + SegmentEntries(base, ll, s.segments), current);
    EntriesConcat(init, SegmentEntries(base, ll, s.segments));
    if s.init.Some? { OneEntry(init[0]); } else { NoEntries(); NoUris([]); }
  }

  /** Numbers fit the source's u64 sequence numbers and u32 part indices. */
  ghost predicate Fits(s: Stream) {
    && s.nextSequence < U64_LIMIT && |s.currentParts| <= U32_LIMIT
    && forall i | 0 <= i < |s.segments| :: forall p | p in s.segments[i].parts :: p.index < U32_LIMIT
  }

  ghost predicate ServedAs(store: map<string, Stream>, e: Entry) {
    var r := Serve(store, e.uri);
    r.Some? && r.value.status == 200 && r.value.body == Bytes(e.media)
  }

  ghost predicate Hosts(store: map<string, Stream>, app: string, name: string, s: Stream) {
    NoSlash(app) && NoSlash(name) && Key(app, name) in store && store[Key(app, name)] == s
  }

  lemma {:induction false} PartServed(store: map<string, Stream>, app: string, name: string, s: Stream,
                                     n: nat, p: Part)
    requires Hosts(store, app, name, s) && n < U64_LIMIT && p.index < U32_LIMIT
    requires LookupPart(s, n, p.index) == Some(p)
    ensures ServedAs(store, Entry(Base(app, name) + "/" + PartName(n, p.index), p.data))
  {
    hide Base, PartName, LookupPart, RouteFile, RoutePath;
    RoutePrinted(app, name, PartName(n, p.index));
    RouteNames(app, name, n, p.index);
  }

  lemma {:induction false} PartEntriesServed(store: map<string, Stream>, app: string, name: string, s: Stream,
                                            n: nat, ps: seq<Part>)
    requires Hosts(store, app, name, s) && n < U64_LIMIT
    requires forall p | p in ps :: p.index < U32_LIMIT && LookupPart(s, n, p.index) == Some(p)
    ensures forall e | e in PartEntries(Base(app, name), n, ps) :: ServedAs(store, e)
  {
    hide Base, PartName, LookupPart, Serve;
    if ps != [] {
      PartEntriesServed(store, app, name, s, n, ps[..|ps| - 1]);
      PartServed(store, app, name, s, n, ps[|ps| - 1]);
    }
  }

  lemma {:induction false} SegmentServed(store: map<string, Stream>, app: string, name: string, s: Stream, k: nat)
    requires Hosts(store, app, name, s) && Consecutive(s) && Fits(s) && k < |s.segments|
    ensures var g := s.segments[k];
      ServedAs(store, Entry(Base(app, name) + "/" + SegmentName(g.sequence), g.data))
  {
    hide Base, SegmentName, RouteFile, RoutePath;
    var n := s.segments[k].sequence;
    FindsEachSegment(s.segments, s.mediaSequence, k);
    RoutePrinted(app, name, SegmentName(n));
    RouteNames(app, name, n, 0);
  }

  lemma {:induction false} SegmentPartsFound(s: Stream, k: nat)
    requires Consecutive(s) && s.nextSequence == s.currentPartSequence && Fits(s) && k < |s.segments|
    ensures forall p | p in s.segments[k].parts ::
      p.index < U32_LIMIT && LookupPart(s, s.segments[k].sequence, p.index) == Some(p)
  {
    var g := s.segments[k];
    forall p | p in g.parts
      ensures p.index < U32_LIMIT && LookupPart(s, g.sequence, p.index) == Some(p)
    {
      assert g.parts == [p];
      PartOfSegment(s, k, p.index);
    }
  }

  lemma {:induction false} SegmentEntriesServed(store: map<string, Stream>, app: string, name: string,
                                               s: Stream, k: nat)
    requires Hosts(store, app, name, s) && Consecutive(s) && s.nextSequence == s.currentPartSequence && Fits(s)
    requires k <= |s.segments|
    ensures forall e | e in SegmentEntries(Base(app, name), s.settings.llHls, s.segments[..k]) :: ServedAs(store, e)
  {
    hide Base, PartName, SegmentName, LookupPart, Serve, Fits, Consecutive;
    if k > 0 {
      SegmentEntriesServed(store, app, name, s, k - 1);
      var g := s.segments[k - 1];
      SegmentServed(store, app, name, s, k - 1);
      SegmentPartsFound(s, k - 1);
      assert g.sequence < U64_LIMIT by { SegmentNumberFits(s, k - 1); }
      PartEntriesServed(store, app, name, s, g.sequence, g.parts);
      assert s.segments[..k][..k - 1] == s.segments[..k - 1];
    }
  }

  lemma {:induction false} SegmentNumberFits(s: Stream, k: nat)
    requires Consecutive(s) && Fits(s) && k < |s.segments|
    ensures s.segments[k].sequence < U64_LIMIT
  {
  }

  lemma {:induction false} CurrentPartsFound(s: Stream)
    requires Consecutive(s) && s.nextSequence == s.currentPartSequence && Fits(s)
    ensures forall p | p in s.currentParts ::
      p.index < U32_LIMIT && LookupPart(s, s.nextSequence, p.index) == Some(p)
  {
    forall p | p in s.currentParts
      ensures p.index < U32_LIMIT && LookupPart(s, s.nextSequence, p.index) == Some(p)
    {
      var i :| 0 <= i < |s.currentParts| && s.currentParts[i] == p;
      PartInProgress(s, i);
    }
  }

  lemma {:induction false} InitServed(store: map<string, Stream>, app: string, name: string, s: Stream)
    requires Hosts(store, app, name, s) && s.init.Some?
    ensures ServedAs(store, Entry(Base(app, name) + "/init.mp4", s.init.value))
  {
    hide Base, RouteFile, RoutePath;
    RoutePrinted(app, name, "init.mp4");
    RouteNames(app, name, 0, 0);
    assert Base(app, name) + "/init.mp4" == Base(app, name) + "/" + "init.mp4";
  }

  lemma {:induction false} ListedServed(store: map<string, Stream>, app: string, name: string, s: Stream)
    requires Hosts(store, app, name, s) && Consecutive(s) && s.nextSequence == s.currentPartSequence && Fits(s)
    ensures forall e | e in Listed(s, Base(app, name)) :: ServedAs(store, e)
  {
    hide Base, PartName, SegmentName, LookupPart, Serve;
    if s.init.Some? { InitServed(store, app, name, s); }
    SegmentEntriesServed(store, app, name, s, |s.segments|);
    assert s.segments[..|s.segments|] == s.segments;
    CurrentPartsFound(s);
    PartEntriesServed(store, app, name, s, s.nextSequence, s.currentParts);
  }

  /**
   In every reachable state the manifest request answers with the playlist, and each URI printed in
   it, requested in turn, answers 200 with exactly the bytes of the init segment, segment or part
   it was printed for.
   */
  lemma {:induction false} EveryPrintedUriIsServed(settings: Settings, maxSegments: nat, actions: seq<Action>,
                                                  store: map<string, Stream>, app: string, name: string)
    requires var s := Exec(Start(settings, maxSegments), actions).stream;
      Hosts(store, app, name, s) && Fits(s)
    ensures var s := Exec(Start(settings, maxSegments), actions).stream;
      var lines, entries := Lines(s, Base(app, name)), Listed(s, Base(app, name));
      && Serve(store, Base(app, name) + ".m3u8") == Some(Response(200, Manifest(lines), "no-cache, no-store"))
      && UrisOf(lines) == EntryUris(entries)
      && forall k | 0 <= k < |entries| :: UrisOf(lines)[k] == entries[k].uri && ServedAs(store, entries[k])
  {
    hide Base, Lines, Listed, UrisOf, RoutePath;
    EveryRun(settings, maxSegments, actions);
    var s := Exec(Start(settings, maxSegments), actions).stream;
    PrintedIsListed(s, Base(app, name));
    ListedServed(store, app, name, s);
    RouteManifest(app, name);
  }
}
