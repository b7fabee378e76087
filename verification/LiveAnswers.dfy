/**
 What each live URI answers after a run, in terms of the frames fed: whether the file is there, its
 bytes, and how long it may be cached.
 */
module LiveAnswers {
  import opened Wrappers
  import opened Decimal
  import opened Segmenter
  import opened Conservation
  import opened LiveStream
  import opened LiveSystem
  import opened Playlist
  import opened LiveServer
  import LiveContents

  ghost function StoreAt(settings: Settings, maxSegments: nat, actions: seq<Action>, app: string,
                         name: string): map<string, Stream>
  {
    map[Key(app, name) := Exec(Start(settings, maxSegments), actions).stream]
  }

  lemma {:induction false} SegmentAnswered(s: Stream, store: map<string, Stream>, app: string, name: string, n: nat)
    requires Hosts(store, app, name, s) && n < U64_LIMIT
    ensures Serve(store, LiveContents.SegmentAt(Base(app, name), n)) == Some(SegmentResponse(s, n))
  {
    hide Base, SegmentName, RouteFile, RoutePath, LiveContents.SegmentAt;
    LiveContents.Located(Base(app, name), n, 0);
    RoutePrinted(app, name, SegmentName(n));
    RouteNames(app, name, n, 0);
  }

  lemma {:induction false} PartAnswered(s: Stream, store: map<string, Stream>, app: string, name: string, n: nat,
                                        i: nat)
    requires Hosts(store, app, name, s) && n < U64_LIMIT && i < U32_LIMIT
    ensures Serve(store, LiveContents.PartAt(Base(app, name), n, i)) == Some(PartResponse(s, n, i))
  {
    hide Base, PartName, RouteFile, RoutePath, LiveContents.PartAt;
    LiveContents.Located(Base(app, name), n, i);
    RoutePrinted(app, name, PartName(n, i));
    RouteNames(app, name, n, i);
  }

  /**
   After every run: segment n is answered with the bytes of the n-th segment the frames led to, to be
   cached for an hour, from the moment it closes until the ring drops it, and with 404 before and after.
   */
  lemma {:induction false} SegmentAnswer(settings: Settings, maxSegments: nat, actions: seq<Action>, app: string,
                                         name: string, n: nat)
    requires NoSlash(app) && NoSlash(name) && n < U64_LIMIT
    ensures
      var cuts := Run(settings, LiveContents.Fed(actions)).cuts;
      var r := Serve(StoreAt(settings, maxSegments, actions, app, name), LiveContents.SegmentAt(Base(app, name), n));
      r == Some(if |cuts| - maxSegments <= n < |cuts| then Response(200, Bytes(cuts[n].segment.data), "max-age=3600")
                else Response(404, Message("segment not found"), "no-cache"))
  {
    hide Base, Run, Exec, Serve, LiveContents.SegmentAt, FindSegment;
    var s, t := Exec(Start(settings, maxSegments), actions).stream, Run(settings, LiveContents.Fed(actions));
    LiveContents.StreamIsRun(settings, maxSegments, actions);
    EveryRun(settings, maxSegments, actions);
    SegmentAnswered(s, StoreAt(settings, maxSegments, actions, app, name), app, name, n);
    if s.mediaSequence <= n < s.nextSequence {
      FindsEachSegment(s.segments, s.mediaSequence, n - s.mediaSequence);
    } else {
      FindsNothing(s.segments, s.mediaSequence, n, 0);
    }
  }

  /**
   After every run: a part is answered with its bytes, to be cached for a second, while its segment is in
   progress; once the segment has closed, only the part it closed with is still there, and only as long
   as the segment.  Any other part is answered with 404.
   */
  lemma {:induction false} PartAnswer(settings: Settings, maxSegments: nat, actions: seq<Action>, app: string,
                                      name: string, n: nat, i: nat)
    requires NoSlash(app) && NoSlash(name) && n < U64_LIMIT && i < U32_LIMIT
    ensures
      var t := Run(settings, LiveContents.Fed(actions));
      var r := Serve(StoreAt(settings, maxSegments, actions, app, name), LiveContents.PartAt(Base(app, name), n, i));
      if n == |t.cuts| && i < |t.openParts| then
        r == Some(Response(200, Bytes(t.openParts[i].part.data), "max-age=1"))
      else if |t.cuts| - maxSegments <= n < |t.cuts| && t.cuts[n].segment.parts != []
              && t.cuts[n].segment.parts[0].index == i then
        r == Some(Response(200, Bytes(t.cuts[n].segment.parts[0].data), "max-age=1"))
      else r == Some(Response(404, Message("part not found"), "no-cache"))
  {
    hide Base, Run, Exec, Serve, LiveContents.PartAt, LookupPart, FindPart;
    var s, t := Exec(Start(settings, maxSegments), actions).stream, Run(settings, LiveContents.Fed(actions));
    LiveContents.StreamIsRun(settings, maxSegments, actions);
    EveryRun(settings, maxSegments, actions);
    PartAnswered(s, StoreAt(settings, maxSegments, actions, app, name), app, name, n, i);
    if n == s.nextSequence {
      PartInProgress(s, i);
    } else if s.mediaSequence <= n < s.nextSequence {
      var g := s.segments[n - s.mediaSequence];
      PartOfSegment(s, n - s.mediaSequence, i);
      OnePart(g.parts, i);
    } else {
      PartElsewhere(s, n, i);
    }
  }

  lemma {:induction false} OnePart(ps: seq<Part>, i: nat)
    requires |ps| <= 1
    ensures FindPart(ps, i) == if ps != [] && ps[0].index == i then Some(ps[0]) else None
  {
    if ps != [] { assert ps[1..] == []; }
  }

  /**
   The init segment is answered from the first frame that finds a video configuration on, to be cached for a
   day, and with 404 until then; a path of a stream that is not there is left to the ordinary proxy.
   */
  lemma {:induction false} InitAnswer(settings: Settings, maxSegments: nat, actions: seq<Action>, app: string,
                                      name: string, path: string)
    requires NoSlash(app) && NoSlash(name)
    ensures
      var y := Exec(Start(settings, maxSegments), actions);
      var r := Serve(StoreAt(settings, maxSegments, actions, app, name), Base(app, name) + "/init.mp4");
      if Run(settings, LiveContents.Fed(actions)).state.initBuilt then
        y.stream.init.Some? && r == Some(Response(200, Bytes(y.stream.init.value), "max-age=86400"))
      else r == Some(Response(404, Message("init segment not ready"), "no-cache"))
    ensures Serve(map[], path) == None
  {
    hide Base, Run, Exec, RoutePath, RouteFile;
    EveryRun(settings, maxSegments, actions);
    LiveContents.StreamIsRun(settings, maxSegments, actions);
    RoutePrinted(app, name, "init.mp4");
    RouteNames(app, name, 0, 0);
    assert Base(app, name) + "/init.mp4" == Base(app, name) + "/" + "init.mp4";
  }

  /** With another stream in the store, whatever is asked of this one is still answered by it. */
  lemma {:induction false} StreamsDoNotMix(store: map<string, Stream>, app: string, name: string, s: Stream,
                                           app': string, name': string, s': Stream, path: string)
    requires Hosts(store, app, name, s) && NoSlash(app') && (app, name) != (app', name')
    requires RoutePath(path).NotLive? || (RoutePath(path).app == app && RoutePath(path).name == name)
    ensures Hosts(store[Key(app', name') := s'], app, name, s)
    ensures Serve(store[Key(app', name') := s'], path) == Serve(store, path)
  {
    hide Key, RoutePath;
    if Key(app, name) == Key(app', name') { KeysDiffer(app, name, app', name'); }
  }
}
