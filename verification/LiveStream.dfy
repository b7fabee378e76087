/**
 `LiveStream`: the ring buffer of completed segments, the parts of the segment in progress, and
 the waiters of blocking playlist reloads.

 A waiter's oneshot channel is numbered by its position in `channels`; `signals` lists the
 channels that were sent to, in order.
 */
module LiveStream {
  import opened Wrappers
  import opened Segmenter

  datatype Target = Target(msn: nat, part: Option<nat>)

  datatype Waiter = Waiter(target: Target, channel: nat)

  datatype Stream = Stream(
    settings: Settings,
    maxSegments: nat,
    init: Option<Media>,
    segments: seq<Segment>,
    mediaSequence: nat,
    nextSequence: nat,
    currentParts: seq<Part>,
    currentPartSequence: nat,
    ended: bool,
    waiters: seq<Waiter>,
    channels: seq<Target>,
    signals: seq<nat>)

  function Created(settings: Settings, maxSegments: nat): Stream {
    Stream(settings, maxSegments, None, [], 0, 0, [], 0, false, [], [], [])
  }

  /** The msn/part a blocking reload asks for is in the playlist. */
  predicate Available(s: Stream, t: Target) {
    || (s.segments != [] && t.msn <= s.segments[|s.segments| - 1].sequence)
    || (t.msn == s.currentPartSequence
        && match t.part
           case None => s.currentParts != []
           case Some(p) => |s.currentParts| > p)
  }

  /** A reload for this target returns at once. */
  predicate Ready(s: Stream, t: Target) {
    Available(s, t) || s.ended
  }

  function StillWaiting(s: Stream, ws: seq<Waiter>): seq<Waiter> {
    if ws == [] then []
    else var rest := StillWaiting(s, ws[..|ws| - 1]);
         if Ready(s, ws[|ws| - 1].target) then rest else rest + [ws[|ws| - 1]]
  }

  function Woken(s: Stream, ws: seq<Waiter>): seq<nat> {
    if ws == [] then []
    else var rest := Woken(s, ws[..|ws| - 1]);
         if Ready(s, ws[|ws| - 1].target) then rest + [ws[|ws| - 1].channel] else rest
  }

  function Notify(s: Stream): Stream {
    s.(waiters := StillWaiting(s, s.waiters), signals := s.signals + Woken(s, s.waiters))
  }

  function Channels(ws: seq<Waiter>): (r: seq<nat>)
    ensures |r| == |ws|
  {
    seq(|ws|, i requires 0 <= i < |ws| => ws[i].channel)
  }

  function End(s: Stream): Stream {
    s.(ended := true, waiters := [], signals := s.signals + Channels(s.waiters))
  }

  function Excess(length: nat, limit: nat): nat {
    if length > limit then length - limit else 0
  }

  /** The newest segments that fit the ring; the media sequence advances by the number dropped. */
  function Buffered(s: Stream, g: Segment): Stream {
    var drop := Excess(|s.segments| + 1, s.maxSegments);
    s.(segments := (s.segments + [g])[drop..], mediaSequence := s.mediaSequence + drop,
       currentParts := [], nextSequence := s.nextSequence + 1, currentPartSequence := s.nextSequence + 1)
  }

  function PushSegment(s: Stream, g: Segment): Stream {
    Notify(Buffered(s, g))
  }

  function PushPart(s: Stream, p: Part): Stream {
    Notify(s.(currentParts := s.currentParts + [p]))
  }

  function PushParts(s: Stream, ps: seq<Part>): Stream {
    if ps == [] then s else PushPart(PushParts(s, ps[..|ps| - 1]), ps[|ps| - 1])
  }

  /** `apply_segmenter_output`, under one hold of the write lock. */
  function Apply(s: Stream, o: Output): Stream {
    var s0 := if o.init.Some? then s.(init := o.init) else s;
    var s1 := PushParts(s0, o.parts);
    if o.segment.Some? then PushSegment(s1, o.segment.value) else s1
  }

  function AddWaiter(s: Stream, t: Target): Stream {
    s.(waiters := s.waiters + [Waiter(t, |s.channels|)], channels := s.channels + [t])
  }

  // ------------------------------------------------------------------------------------------
  // The object behind the lock.

  class LiveStreamObject {
    const settings: Settings
    const maxSegments: nat
    var init: Option<Media>
    var segments: seq<Segment>
    var mediaSequence: nat
    var nextSequence: nat
    var currentParts: seq<Part>
    var currentPartSequence: nat
    var ended: bool
    var waiters: seq<Waiter>
    var channels: seq<Target>
    var signals: seq<nat>

    ghost function View(): Stream
      reads this
    {
      Stream(settings, maxSegments, init, segments, mediaSequence, nextSequence, currentParts,
             currentPartSequence, ended, waiters, channels, signals)
    }

    constructor (settings: Settings, maxSegments: nat)
      ensures View() == Created(settings, maxSegments)
    {
      this.settings, this.maxSegments := settings, maxSegments;
      init, segments, mediaSequence, nextSequence := None, [], 0, 0;
      currentParts, currentPartSequence, ended := [], 0, false;
      waiters, channels, signals := [], [], [];
    }

    predicate IsAvailable(t: Target)
      reads this
      ensures IsAvailable(t) <==> Available(View(), t)
    {
      if segments != [] && t.msn <= segments[|segments| - 1].sequence then true
      else if t.msn == currentPartSequence then
        match t.part
        case None => currentParts != []
        case Some(p) => |currentParts| > p
      else false
    }

    /** Drops the oldest segments until the ring fits. */
    method Evict()
      modifies this`segments, this`mediaSequence
      ensures segments == old(segments)[Excess(|old(segments)|, maxSegments)..]
      ensures mediaSequence == old(mediaSequence) + Excess(|old(segments)|, maxSegments)
    {
      var dropped := 0;
      while |segments| > maxSegments
        invariant 0 <= dropped <= Excess(|old(segments)|, maxSegments)
        invariant segments == old(segments)[dropped..]
        invariant mediaSequence == old(mediaSequence) + dropped
      {
        segments := segments[1..];
        mediaSequence := mediaSequence + 1;
        dropped := dropped + 1;
      }
    }

    method PushSegmentInPlace(g: Segment)
      modifies this
      ensures View() == PushSegment(old(View()), g)
    {
      segments := segments + [g];
      Evict();
      currentParts := [];
      nextSequence := nextSequence + 1;
      currentPartSequence := nextSequence;
      assert View() == Buffered(old(View()), g);
      NotifyWaiters();
    }

    method PushPartInPlace(p: Part)
      modifies this
      ensures View() == PushPart(old(View()), p)
    {
      currentParts := currentParts + [p];
      NotifyWaiters();
    }

    method NotifyWaiters()
      modifies this`waiters, this`signals
      ensures View() == Notify(old(View()))
    {
      var pending, remaining := waiters, [];
      waiters := [];
      for i := 0 to |pending|
        invariant remaining == StillWaiting(old(View()), pending[..i])
        invariant signals == old(signals) + Woken(old(View()), pending[..i])
        invariant waiters == []
      {
        var w := pending[i];
        assert pending[..i + 1][..i] == pending[..i];
        assert Available(View(), w.target) == Available(old(View()), w.target);
        if IsAvailable(w.target) || ended {
          signals := signals + [w.channel];
        } else {
          remaining := remaining + [w];
        }
      }
      assert pending[..|pending|] == pending;
      waiters := remaining;
    }

    /** `end_stream`: the lock-held part of the spawned task. */
    method EndInPlace()
      modifies this
      ensures View() == End(old(View()))
    {
      ended := true;
      var pending := waiters;
      for i := 0 to |pending|
        invariant signals == old(signals) + Channels(pending[..i])
        invariant View() == old(View()).(ended := true, signals := signals)
      {
        assert Channels(pending[..i + 1]) == Channels(pending[..i]) + [pending[i].channel];
        signals := signals + [pending[i].channel];
      }
      assert pending[..|pending|] == pending;
      waiters := [];
    }

    method ApplyOutput(o: Output)
      modifies this
      ensures View() == Apply(old(View()), o)
    {
      if o.init.Some? { init := o.init; }
      ghost var s0 := View();
      for i := 0 to |o.parts|
        invariant View() == PushParts(s0, o.parts[..i])
      {
        assert o.parts[..i + 1][..i] == o.parts[..i];
        PushPartInPlace(o.parts[i]);
      }
      assert o.parts[..|o.parts|] == o.parts;
      if o.segment.Some? { PushSegmentInPlace(o.segment.value); }
    }

    /** The write-locked half of `wait_for_availability`: re-check, then register. */
    method CheckOrRegister(t: Target) returns (channel: Option<nat>)
      modifies this
      ensures if Ready(old(View()), t) then channel == None && View() == old(View())
              else channel == Some(|old(channels)|) && View() == AddWaiter(old(View()), t)
    {
      if IsAvailable(t) || ended {
        return None;
      }
      channel := Some(|channels|);
      waiters := waiters + [Waiter(t, |channels|)];
      channels := channels + [t];
    }
  }
}
