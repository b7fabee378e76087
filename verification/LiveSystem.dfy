/**
 The ingest task and any number of blocking playlist readers on one live stream.

 The segmenter belongs to the ingest task alone, so pushing a frame and applying its output is one
 action; every other action is one hold of the stream's lock, or a wait that ends.  A run is any
 list of actions: one that is not enabled does nothing.
 */
module LiveSystem {
  import opened Wrappers
  import opened Segmenter
  import opened Conservation
  import opened LiveStream

  datatype Progress = Arrived | Checked | Waiting(channel: nat) | Returned | TimedOut

  datatype Reader = Reader(target: Target, at: Progress)

  datatype System = System(segmenter: State, stream: Stream, readers: map<nat, Reader>)

  datatype Action =
    | Feed(event: Event)
    | EndStream
    | Arrive(id: nat, target: Target)
    | ReadCheck(id: nat)
    | Register(id: nat)
    | Wake(id: nat)
    | Timeout(id: nat)

  function Start(settings: Settings, maxSegments: nat): System {
    System(New(settings), Created(settings, maxSegments), map[])
  }

  function Move(y: System, id: nat, at: Progress): System
    requires id in y.readers
  {
    y.(readers := y.readers[id := y.readers[id].(at := at)])
  }

  function Next(y: System, a: Action): System {
    match a
    case Feed(e) =>
      var (s, o) := Step(y.segmenter, e);
      y.(segmenter := s, stream := Apply(y.stream, o))
    case EndStream => y.(stream := End(y.stream))
    case Arrive(id, target) =>
      if id in y.readers then y else y.(readers := y.readers[id := Reader(target, Arrived)])
    case ReadCheck(id) =>
      if id !in y.readers || y.readers[id].at != Arrived then y
      else Move(y, id, if Ready(y.stream, y.readers[id].target) then Returned else Checked)
    case Register(id) =>
      if id !in y.readers || y.readers[id].at != Checked then y
      else if Ready(y.stream, y.readers[id].target) then Move(y, id, Returned)
      else Move(y, id, Waiting(|y.stream.channels|)).(stream := AddWaiter(y.stream, y.readers[id].target))
    case Wake(id) =>
      if id !in y.readers || !y.readers[id].at.Waiting? || y.readers[id].at.channel !in y.stream.signals then y
      else Move(y, id, Returned)
    case Timeout(id) =>
      if id !in y.readers || !y.readers[id].at.Waiting? || y.readers[id].at.channel in y.stream.signals then y
      else Move(y, id, TimedOut)
  }

  function Exec(y: System, actions: seq<Action>): System {
    if actions == [] then y else Next(Exec(y, actions[..|actions| - 1]), actions[|actions| - 1])
  }

  // ------------------------------------------------------------------------------------------
  // Lock-step: the two objects never disagree about what exists.

  ghost predicate Consecutive(s: Stream) {
    && s.mediaSequence + |s.segments| == s.nextSequence
    && |s.segments| <= s.maxSegments
    && (forall i | 0 <= i < |s.segments| :: s.segments[i].sequence == s.mediaSequence + i)
    && (forall i | 0 <= i < |s.segments| :: |s.segments[i].parts| <= 1)
    && (forall i | 0 <= i < |s.currentParts| :: s.currentParts[i].index == i)
  }

  ghost predicate InStep(seg: State, s: Stream) {
    && seg.segmentParts == []
    && seg.settings == s.settings
    && seg.nextSequence == s.nextSequence == s.currentPartSequence
    && seg.partIndex == |s.currentParts|
    && (seg.initBuilt <==> s.init.Some?)
    && (!s.settings.llHls ==> s.currentParts == [])
    && Consecutive(s)
  }

  /** The parts of a stream that notifying waiters leaves alone. */
  function Content(s: Stream): Stream {
    s.(waiters := [], signals := [])
  }

  lemma {:induction false} ApplyContent(s: Stream, o: Output)
    requires o.segment.Some? ==> o.parts == []
    requires |o.parts| <= 1
    ensures var s0 := if o.init.Some? then s.(init := o.init) else s;
      Content(Apply(s, o)) == Content(
        if o.segment.Some? then Buffered(s0, o.segment.value)
        else s0.(currentParts := s0.currentParts + o.parts))
  {
    if |o.parts| == 1 {
      var s0 := if o.init.Some? then s.(init := o.init) else s;
      assert o.parts[..0] == [] && o.parts == [o.parts[0]];
      assert PushParts(s0, o.parts) == PushPart(s0, o.parts[0]);
    } else {
      assert s.currentParts + o.parts == s.currentParts;
    }
  }

  lemma {:induction false} BufferedConsecutive(s: Stream, g: Segment)
    requires Consecutive(s) && g.sequence == s.nextSequence && |g.parts| <= 1
    ensures Consecutive(Buffered(s, g))
  {
  }

  lemma {:induction false} ApplyNothing(s: Stream)
    ensures Apply(s, Output(None, [], None)) == s
  {
  }

  lemma {:induction false} FeedInStep(seg: State, s: Stream, e: Event)
    requires InStep(seg, s)
    ensures var (seg1, o) := Step(seg, e); InStep(seg1, Apply(s, o))
  {
    hide PushFrame, Apply;
    var (seg1, o) := Step(seg, e);
    if e.Push? {
      PushFacts(seg, e.frame);
      ApplyContent(s, o);
      PushInStep(seg, s, seg1, o, Apply(s, o));
    } else {
      ApplyNothing(s);
    }
  }

  lemma {:induction false} PushInStep(seg: State, s: Stream, seg1: State, o: Output, s1: Stream)
    requires InStep(seg, s) && seg1.segmentParts == [] && seg1.settings == seg.settings
    requires o.init.Some? <==> seg1.initBuilt && !seg.initBuilt
    requires seg.initBuilt ==> seg1.initBuilt
    requires var s0 := if o.init.Some? then s.(init := o.init) else s;
      Content(s1) == Content(if o.segment.Some? then Buffered(s0, o.segment.value)
                             else s0.(currentParts := s0.currentParts + o.parts))
    requires if o.segment.Some?
             then o.segment.value.sequence == seg.nextSequence && |o.segment.value.parts| <= 1
                  && seg1.nextSequence == seg.nextSequence + 1 && seg1.partIndex == 0
             else seg1.nextSequence == seg.nextSequence && seg1.partIndex == seg.partIndex + |o.parts|
                  && |o.parts| <= 1 && (o.parts != [] ==> seg.settings.llHls && o.parts[0].index == seg.partIndex)
    ensures InStep(seg1, s1)
  {
    var s0 := if o.init.Some? then s.(init := o.init) else s;
    if o.segment.Some? {
      BufferedConsecutive(s0, o.segment.value);
      ContentConsecutive(s1, Buffered(s0, o.segment.value));
    } else {
      ContentConsecutive(s1, s0.(currentParts := s0.currentParts + o.parts));
    }
  }

  lemma {:induction false} ContentConsecutive(a: Stream, b: Stream)
    requires Content(a) == Content(b) && Consecutive(b)
    ensures Consecutive(a) && a.nextSequence == b.nextSequence && a.currentPartSequence == b.currentPartSequence
    ensures a.currentParts == b.currentParts && a.init == b.init && a.settings == b.settings
    ensures forall t :: Available(a, t) == Available(b, t)
    ensures a.ended == b.ended && a.maxSegments == b.maxSegments
  {
  }

  // ------------------------------------------------------------------------------------------
  // Waiters: every channel ever handed out is pending or was signalled, exactly once.

  function Uses(s: Stream, c: nat): nat {
    multiset(s.signals)[c] + multiset(Channels(s.waiters))[c]
  }

  ghost predicate ChannelsOnce(s: Stream) {
    forall c: nat :: Uses(s, c) == if c < |s.channels| then 1 else 0
  }

  ghost predicate PendingUnready(s: Stream) {
    && (s.ended ==> s.waiters == [])
    && forall i | 0 <= i < |s.waiters| ::
         && s.waiters[i].channel < |s.channels| && s.channels[s.waiters[i].channel] == s.waiters[i].target
         && !Ready(s, s.waiters[i].target)
  }

  lemma {:induction false} NotifySplits(s: Stream, ws: seq<Waiter>)
    ensures multiset(Woken(s, ws)) + multiset(Channels(StillWaiting(s, ws))) == multiset(Channels(ws))
    ensures forall i | 0 <= i < |StillWaiting(s, ws)| ::
              StillWaiting(s, ws)[i] in ws && !Ready(s, StillWaiting(s, ws)[i].target)
  {
    if ws != [] {
      var front, w := ws[..|ws| - 1], ws[|ws| - 1];
      NotifySplits(s, front);
      assert Channels(ws) == Channels(front) + [w.channel];
      if !Ready(s, w.target) {
        assert Channels(StillWaiting(s, front) + [w]) == Channels(StillWaiting(s, front)) + [w.channel];
      }
    }
  }

  ghost predicate Registered(s: Stream) {
    forall i | 0 <= i < |s.waiters| ::
      s.waiters[i].channel < |s.channels| && s.channels[s.waiters[i].channel] == s.waiters[i].target
  }

  lemma {:induction false} NotifyKeeps(s: Stream)
    requires ChannelsOnce(s) && Registered(s)
    ensures ChannelsOnce(Notify(s)) && PendingUnready(Notify(s)) && Registered(Notify(s))
    ensures s.signals <= Notify(s).signals
    ensures forall t :: Ready(Notify(s), t) == Ready(s, t)
  {
    var n := Notify(s);
    NotifySplits(s, s.waiters);
    forall c: nat ensures Uses(n, c) == Uses(s, c) {
      assert multiset(n.signals) == multiset(s.signals) + multiset(Woken(s, s.waiters));
    }
    forall t ensures Ready(n, t) == Ready(s, t) {}
    forall i | 0 <= i < |n.waiters|
      ensures n.waiters[i].channel < |n.channels| && n.channels[n.waiters[i].channel] == n.waiters[i].target
      ensures !Ready(n, n.waiters[i].target)
    {
      var w := n.waiters[i];
      assert w in s.waiters;
      var j :| 0 <= j < |s.waiters| && s.waiters[j] == w;
    }
  }

  lemma {:induction false} PartsKeep(s: Stream, ps: seq<Part>)
    requires ChannelsOnce(s) && Registered(s) && PendingUnready(s)
    ensures var s1 := PushParts(s, ps); ChannelsOnce(s1) && Registered(s1) && PendingUnready(s1)
    ensures s.signals <= PushParts(s, ps).signals && PushParts(s, ps).channels == s.channels
  {
    if ps != [] {
      var before := PushParts(s, ps[..|ps| - 1]);
      PartsKeep(s, ps[..|ps| - 1]);
      var pushed := before.(currentParts := before.currentParts + [ps[|ps| - 1]]);
      assert forall c: nat :: Uses(pushed, c) == Uses(before, c);
      NotifyKeeps(pushed);
    }
  }

  lemma {:induction false} ApplyKeeps(s: Stream, o: Output)
    requires ChannelsOnce(s) && Registered(s) && PendingUnready(s)
    ensures var s1 := Apply(s, o); ChannelsOnce(s1) && Registered(s1) && PendingUnready(s1)
    ensures s.signals <= Apply(s, o).signals && Apply(s, o).channels == s.channels
  {
    var s0 := if o.init.Some? then s.(init := o.init) else s;
    assert forall c: nat :: Uses(s0, c) == Uses(s, c);
    assert forall t :: Ready(s0, t) == Ready(s, t);
    PartsKeep(s0, o.parts);
    var s1 := PushParts(s0, o.parts);
    if o.segment.Some? {
      var b := Buffered(s1, o.segment.value);
      assert forall c: nat :: Uses(b, c) == Uses(s1, c);
      NotifyKeeps(b);
    }
  }

  lemma {:induction false} EndKeeps(s: Stream)
    requires ChannelsOnce(s)
    ensures ChannelsOnce(End(s)) && PendingUnready(End(s)) && Registered(End(s))
  {
    assert multiset(End(s).signals) == multiset(s.signals) + multiset(Channels(s.waiters));
    forall c: nat ensures Uses(End(s), c) == Uses(s, c) {}
  }

  lemma {:induction false} RegisterKeeps(s: Stream, t: Target)
    requires ChannelsOnce(s) && Registered(s) && PendingUnready(s) && !Ready(s, t)
    ensures var s1 := AddWaiter(s, t); ChannelsOnce(s1) && Registered(s1) && PendingUnready(s1)
  {
    var s1 := AddWaiter(s, t);
    assert Channels(s1.waiters) == Channels(s.waiters) + [|s.channels|];
    forall u ensures Ready(s1, u) == Ready(s, u) {}
    var k: nat := |s.channels|;
    assert multiset(Channels(s1.waiters)) == multiset(Channels(s.waiters)) + multiset{k};
    forall c: nat ensures Uses(s1, c) == if c < |s1.channels| then 1 else 0 {
      assert Uses(s, c) == if c < |s.channels| then 1 else 0;
    }
  }

  // ------------------------------------------------------------------------------------------
  // Availability never goes back, as long as the ring holds at least one segment.

  lemma {:induction false} AvailabilityStays(seg: State, s: Stream, e: Event, t: Target)
    requires InStep(seg, s) && s.maxSegments >= 1 && Ready(s, t)
    ensures Ready(Apply(s, Step(seg, e).1), t)
  {
    hide PushFrame, Apply, WellCut, TrailingPart, HasTrack;
    var o := Step(seg, e).1;
    if e.Push? {
      PushFacts(seg, e.frame);
      ApplyContent(s, o);
      var s0 := if o.init.Some? then s.(init := o.init) else s;
      if o.segment.Some? {
        BufferedConsecutive(s0, o.segment.value);
        ContentConsecutive(Apply(s, o), Buffered(s0, o.segment.value));
        BufferedStaysReady(s0, o.segment.value, t);
      } else {
        FeedInStep(seg, s, e);
        assert Apply(s, o).currentParts == s.currentParts + o.parts;
      }
    } else {
      ApplyNothing(s);
    }
  }

  lemma {:induction false} BufferedStaysReady(s: Stream, g: Segment, t: Target)
    requires Consecutive(s) && s.nextSequence == s.currentPartSequence
    requires g.sequence == s.nextSequence && s.maxSegments >= 1 && Ready(s, t)
    ensures Ready(Buffered(s, g), t)
  {
  }

  // ------------------------------------------------------------------------------------------
  // Every run.

  ghost predicate ReadersHold(y: System) {
    forall id | id in y.readers ::
      match y.readers[id].at
      case Waiting(c) => c < |y.stream.channels| && y.stream.channels[c] == y.readers[id].target
      case Returned => y.stream.maxSegments >= 1 ==> Ready(y.stream, y.readers[id].target)
      case _ => true
  }

  /** Signals are sent only for targets that are, and remain, ready. */
  ghost predicate SignalsTrue(s: Stream) {
    forall i | 0 <= i < |s.signals| ::
      s.signals[i] < |s.channels| && (s.maxSegments >= 1 ==> Ready(s, s.channels[s.signals[i]]))
  }

  ghost predicate Inv(y: System) {
    && InStep(y.segmenter, y.stream)
    && ChannelsOnce(y.stream) && Registered(y.stream) && PendingUnready(y.stream)
    && SignalsTrue(y.stream)
    && ReadersHold(y)
  }

  lemma {:induction false} WokenReady(s: Stream, ws: seq<Waiter>)
    requires forall i | 0 <= i < |ws| :: ws[i].channel < |s.channels| && s.channels[ws[i].channel] == ws[i].target
    ensures forall i | 0 <= i < |Woken(s, ws)| ::
              Woken(s, ws)[i] < |s.channels| && Ready(s, s.channels[Woken(s, ws)[i]])
  {
    if ws != [] {
      WokenReady(s, ws[..|ws| - 1]);
    }
  }

  /** Notifying sends only to waiters whose target is ready at that moment. */
  lemma {:induction false} NotifyTruthful(s: Stream)
    requires Registered(s)
    ensures forall i | |s.signals| <= i < |Notify(s).signals| ::
              Notify(s).signals[i] < |s.channels| && Ready(s, s.channels[Notify(s).signals[i]])
  {
    WokenReady(s, s.waiters);
    forall i | |s.signals| <= i < |Notify(s).signals|
      ensures Notify(s).signals[i] < |s.channels| && Ready(s, s.channels[Notify(s).signals[i]])
    {
      assert Notify(s).signals[i] == Woken(s, s.waiters)[i - |s.signals|];
    }
  }

  lemma {:induction false} AppendedSignals(s: Stream, s1: Stream)
    requires SignalsTrue(s) && s1.channels == s.channels && s1.maxSegments == s.maxSegments
    requires s.signals <= s1.signals
    requires s.maxSegments >= 1 ==> forall t | Ready(s, t) :: Ready(s1, t)
    requires forall i | |s.signals| <= i < |s1.signals| ::
               s1.signals[i] < |s.channels| && (s.maxSegments >= 1 ==> Ready(s1, s.channels[s1.signals[i]]))
    ensures SignalsTrue(s1)
  {
  }

  /** Signals added by applying an output go to targets ready afterwards. */
  lemma {:induction false} ApplyTruthful(s: Stream, o: Output)
    requires Registered(s) && |o.parts| <= 1 && (o.segment.Some? ==> o.parts == [])
    ensures var s1 := Apply(s, o);
      forall i | |s.signals| <= i < |s1.signals| ::
        s1.signals[i] < |s.channels| && Ready(s1, s.channels[s1.signals[i]])
  {
    if o.segment.Some? || o.parts != [] {
      ApplyNotifies(s, o);
      hide Apply;
      var changed := Extended(s, o);
      NotifyTruthful(changed);
      assert forall t :: Ready(Notify(changed), t) == Ready(changed, t);
    }
  }

  /** The stream with an output's data in place, before anyone is told. */
  function Extended(s: Stream, o: Output): Stream {
    var s0 := if o.init.Some? then s.(init := o.init) else s;
    if o.segment.Some? then Buffered(s0, o.segment.value) else s0.(currentParts := s0.currentParts + o.parts)
  }

  lemma {:induction false} ApplyNotifies(s: Stream, o: Output)
    requires |o.parts| <= 1 && (if o.segment.Some? then o.parts == [] else o.parts != [])
    ensures Apply(s, o) == Notify(Extended(s, o))
  {
    hide Notify;
    if o.segment.None? {
      var s0 := if o.init.Some? then s.(init := o.init) else s;
      assert o.parts[..0] == [] && o.parts == [o.parts[0]];
      assert PushParts(s0, o.parts) == PushPart(s0, o.parts[0]);
    }
  }

  lemma {:induction false} FeedSignals(seg: State, s: Stream, e: Event)
    requires InStep(seg, s) && ChannelsOnce(s) && Registered(s) && PendingUnready(s) && SignalsTrue(s)
    ensures SignalsTrue(Apply(s, Step(seg, e).1))
  {
    var o := Step(seg, e).1;
    var s1 := Apply(s, o);
    ApplyKeeps(s, o);
    if s.maxSegments >= 1 {
      forall t | Ready(s, t) ensures Ready(s1, t) { AvailabilityStays(seg, s, e, t); }
    }
    if e.Push? {
      PushFacts(seg, e.frame);
      ApplyTruthful(s, o);
      MaxSegmentsConstant(s, o);
    }
    AppendedSignals(s, s1);
  }

  lemma {:induction false} FeedKeeps(y: System, e: Event)
    requires Inv(y)
    ensures Inv(Next(y, Feed(e)))
  {
    var (seg1, o) := Step(y.segmenter, e);
    FeedInStep(y.segmenter, y.stream, e);
    ApplyKeeps(y.stream, o);
    FeedSignals(y.segmenter, y.stream, e);
    if e.Push? {
      PushFacts(y.segmenter, e.frame);
      MaxSegmentsConstant(y.stream, o);
    }
    var y1 := Next(y, Feed(e));
    forall id | id in y1.readers && y1.readers[id].at.Returned? && y.stream.maxSegments >= 1
      ensures Ready(y1.stream, y1.readers[id].target)
    {
      AvailabilityStays(y.segmenter, y.stream, e, y.readers[id].target);
    }
  }

  lemma {:induction false} EndStreamKeeps(y: System)
    requires Inv(y)
    ensures Inv(Next(y, EndStream))
  {
    EndKeeps(y.stream);
    var s, s1 := y.stream, End(y.stream);
    forall i | 0 <= i < |s1.signals| ensures s1.signals[i] < |s1.channels| {
      if i >= |s.signals| {
        assert s1.signals[i] == s.waiters[i - |s.signals|].channel;
      }
    }
  }

  lemma {:induction false} RegisterActionKeeps(y: System, id: nat)
    requires Inv(y)
    ensures Inv(Next(y, Register(id)))
  {
    if id in y.readers && y.readers[id].at == Checked && !Ready(y.stream, y.readers[id].target) {
      var s, t := y.stream, y.readers[id].target;
      var s1 := AddWaiter(s, t);
      RegisterKeeps(s, t);
      forall u ensures Ready(s1, u) == Ready(s, u) {}
      assert InStep(y.segmenter, s1);
    }
  }

  lemma {:induction false} NextKeeps(y: System, a: Action)
    requires Inv(y)
    ensures Inv(Next(y, a))
  {
    match a {
      case Feed(e) => FeedKeeps(y, e);
      case EndStream => EndStreamKeeps(y);
      case Register(id) => RegisterActionKeeps(y, id);
      case Wake(id) => WakeKeeps(y, id);
      case _ =>
    }
  }

  lemma {:induction false} WakeKeeps(y: System, id: nat)
    requires Inv(y)
    ensures Inv(Next(y, Wake(id)))
  {
  }

  /** The invariant of the whole system holds after every run. */
  lemma {:induction false} EveryRun(settings: Settings, maxSegments: nat, actions: seq<Action>)
    ensures Inv(Exec(Start(settings, maxSegments), actions))
    ensures Exec(Start(settings, maxSegments), actions).stream.maxSegments == maxSegments
  {
    if actions == [] {
      var y := Start(settings, maxSegments);
      assert Channels(y.stream.waiters) == [];
    } else {
      var before := Exec(Start(settings, maxSegments), actions[..|actions| - 1]);
      EveryRun(settings, maxSegments, actions[..|actions| - 1]);
      NextKeeps(before, actions[|actions| - 1]);
      var a := actions[|actions| - 1];
      if a.Feed? && a.event.Push? {
        PushFacts(before.segmenter, a.event.frame);
        MaxSegmentsConstant(before.stream, Step(before.segmenter, a.event).1);
      }
    }
  }

  lemma {:induction false} MaxSegmentsConstant(s: Stream, o: Output)
    requires |o.parts| <= 1 && (o.segment.Some? ==> o.parts == [])
    ensures Apply(s, o).maxSegments == s.maxSegments
  {
    ApplyContent(s, o);
  }

  /**
   Lock-step, for every interleaving: the segmenter's next sequence number is the stream's and the
   in-progress segment's; its part index is the number of parts listed, part i having index i;
   the buffered segments are numbered consecutively up to it, and the ring never overflows.
   */
  lemma {:induction false} LockStep(settings: Settings, maxSegments: nat, actions: seq<Action>)
    ensures var y := Exec(Start(settings, maxSegments), actions);
      && y.segmenter.nextSequence == y.stream.nextSequence == y.stream.currentPartSequence
      && y.segmenter.partIndex == |y.stream.currentParts|
      && (forall i | 0 <= i < |y.stream.currentParts| :: y.stream.currentParts[i].index == i)
      && |y.stream.segments| <= maxSegments
      && y.stream.mediaSequence + |y.stream.segments| == y.stream.nextSequence
      && (forall i | 0 <= i < |y.stream.segments| ::
            y.stream.segments[i].sequence == y.stream.mediaSequence + i)
  {
    EveryRun(settings, maxSegments, actions);
  }

  /**
   No lost wake-up, for every interleaving: a reader still waiting although its target is ready has
   been signalled; no channel is signalled twice; a pending waiter's target is not ready.
   */
  lemma {:induction false} NoLostWakeup(settings: Settings, maxSegments: nat, actions: seq<Action>, id: nat)
    requires id in Exec(Start(settings, maxSegments), actions).readers
    requires Exec(Start(settings, maxSegments), actions).readers[id].at.Waiting?
    ensures var y := Exec(Start(settings, maxSegments), actions);
      var c := y.readers[id].at.channel;
      && multiset(y.stream.signals)[c] <= 1
      && (Ready(y.stream, y.readers[id].target) ==> c in y.stream.signals)
      && (maxSegments >= 1 && c in y.stream.signals ==> Ready(y.stream, y.readers[id].target))
      && (c !in y.stream.signals ==> Waiter(y.readers[id].target, c) in y.stream.waiters)
  {
    EveryRun(settings, maxSegments, actions);
    var y := Exec(Start(settings, maxSegments), actions);
    var s, c := y.stream, y.readers[id].at.channel;
    assert Uses(s, c) == 1;
    if c !in s.signals {
      assert c in Channels(s.waiters);
      var i :| 0 <= i < |s.waiters| && Channels(s.waiters)[i] == c;
      assert s.waiters[i] == Waiter(y.readers[id].target, c);
    } else {
      var i :| 0 <= i < |s.signals| && s.signals[i] == c;
    }
  }

  // ------------------------------------------------------------------------------------------
  // Exactly when availability is permanent.

  /** In no run does a ready target stop being ready. */
  ghost predicate NeverForgets(maxSegments: nat) {
    forall settings, actions: seq<Action>, a: Action, t: Target ::
      Remembers(Exec(Start(settings, maxSegments), actions), a, t)
  }

  ghost predicate Remembers(y: System, a: Action, t: Target) {
    Ready(y.stream, t) ==> Ready(Next(y, a).stream, t)
  }

  /** A key frame, a delta frame that closes part 0, and a key frame that closes segment 0. */
  const SHORT_RUN: seq<Action> := [
    Feed(Push(Frame(Video, [], 0, 0, true))),
    Feed(Push(Frame(Video, [], 0, 0, false)))]
  const CLOSING_FRAME := Frame(Video, [], 0, 0, true)

  lemma {:induction false} ShortRun()
    ensures var y := Exec(Start(Settings(0.0, 0.0, true), 0), SHORT_RUN);
      && |y.stream.currentParts| == 1
      && PushFrame(y.segmenter, CLOSING_FRAME).1.segment.Some?
  {
    var y0 := Start(Settings(0.0, 0.0, true), 0);
    var f0, f1 := Frame(Video, [], 0, 0, true), Frame(Video, [], 0, 0, false);
    assert SHORT_RUN[..1] == [SHORT_RUN[0]] && SHORT_RUN[..1][..0] == [];
    var y1 := Next(y0, SHORT_RUN[0]);
    var y2 := Next(y1, SHORT_RUN[1]);
    assert Exec(y0, SHORT_RUN[..1]) == y1;
    assert Exec(y0, SHORT_RUN) == y2;
    EveryRun(Settings(0.0, 0.0, true), 0, SHORT_RUN[..1]);
    EveryRun(Settings(0.0, 0.0, true), 0, SHORT_RUN);
    PushFacts(y0.segmenter, f0);
    assert y1.segmenter == PushFrame(y0.segmenter, f0).0;
    assert y1.segmenter.part.video == [SampleOf(f0)] && y1.segmenter.current.video == [SampleOf(f0)];
    PushFacts(y1.segmenter, f1);
    assert PartDue(Begin(y1.segmenter, 0).0, f1, 90000);
    assert PushFrame(y1.segmenter, f1).1.parts != [];
    assert SegmentDue(Begin(y2.segmenter, 0).0, CLOSING_FRAME, 90000);
  }

  /** With a ring of size zero, part 0 is ready until its segment completes. */
  lemma {:induction false} ZeroRingForgets(y: System, f: Frame)
    requires Inv(y) && y.stream.maxSegments == 0 && !y.stream.ended
    requires y.stream.currentParts != [] && PushFrame(y.segmenter, f).1.segment.Some?
    ensures !Remembers(y, Feed(Push(f)), Target(y.stream.nextSequence, Some(0)))
  {
  }

  lemma {:induction false} PositiveRingRemembers(y: System, a: Action, t: Target)
    requires Inv(y) && y.stream.maxSegments >= 1
    ensures Remembers(y, a, t)
  {
    if a.Feed? && Ready(y.stream, t) {
      AvailabilityStays(y.segmenter, y.stream, a.event, t);
    }
  }

  lemma {:induction false} RunRemembers(settings: Settings, maxSegments: nat, actions: seq<Action>,
                                       a: Action, t: Target)
    requires maxSegments >= 1
    ensures Remembers(Exec(Start(settings, maxSegments), actions), a, t)
  {
    EveryRun(settings, maxSegments, actions);
    PositiveRingRemembers(Exec(Start(settings, maxSegments), actions), a, t);
  }

  lemma {:induction false} Forgets(settings: Settings, maxSegments: nat, actions: seq<Action>, a: Action, t: Target)
    requires !Remembers(Exec(Start(settings, maxSegments), actions), a, t)
    ensures !NeverForgets(maxSegments)
  {
  }

  lemma {:induction false} ZeroRunForgets()
    ensures !NeverForgets(0)
  {
    ShortRun();
    NotEnded();
    EveryRun(Settings(0.0, 0.0, true), 0, SHORT_RUN);
    var y := Exec(Start(Settings(0.0, 0.0, true), 0), SHORT_RUN);
    ZeroRingForgets(y, CLOSING_FRAME);
    Forgets(Settings(0.0, 0.0, true), 0, SHORT_RUN, Feed(Push(CLOSING_FRAME)),
            Target(y.stream.nextSequence, Some(0)));
  }

  lemma {:induction false} NeverForgetsIfPositive(maxSegments: nat)
    requires maxSegments >= 1
    ensures NeverForgets(maxSegments)
  {
    forall settings, actions: seq<Action>, a: Action, t: Target
      ensures Remembers(Exec(Start(settings, maxSegments), actions), a, t)
    {
      RunRemembers(settings, maxSegments, actions, a, t);
    }
  }

  /** Readiness is permanent in every run if and only if the ring keeps at least one segment. */
  lemma {:induction false} ReadinessIsPermanent(maxSegments: nat)
    ensures NeverForgets(maxSegments) <==> maxSegments >= 1
  {
    hide *;
    if maxSegments >= 1 {
      NeverForgetsIfPositive(maxSegments);
    } else {
      ZeroRunForgets();
    }
  }

  lemma {:induction false} NotEnded()
    ensures var y := Exec(Start(Settings(0.0, 0.0, true), 0), SHORT_RUN);
      !y.stream.ended
  {
  }
}
