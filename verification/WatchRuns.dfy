/**
 Whole runs of the configuration watcher beside writers and reloads, at the grain of the single
 step, and exactly when the live map ends up as etcd has it.
 */
module WatchRuns {
  import opened Wrappers
  import opened LiveConfig
  import opened Watcher

  // ------------------------------------------------------------------------------------------
  // What parses.  A put that does not parse passes the watch by, but hides its site from a load.

  function Readable(es: seq<Event>, decode: Decoder): (r: seq<Event>)
    ensures AllDecode(r, decode)
  {
    if es == [] then []
    else
      var e := es[|es| - 1];
      Readable(es[..|es| - 1], decode) + if Decodes(e, decode) then [e] else []
  }

  function ReadableLog(log: Log, decode: Decoder): (r: Log)
    ensures |r| == |log| && LogDecodes(r, decode)
  {
    seq(|log|, i requires 0 <= i < |log| => Readable(log[i], decode))
  }

  lemma {:induction false} ReadableConcat(a: seq<Event>, b: seq<Event>, decode: Decoder)
    ensures Readable(a + b, decode) == Readable(a, decode) + Readable(b, decode)
  {
    if b == [] {
      assert a + b == a;
    } else {
      ReadableConcat(a, b[..|b| - 1], decode);
      assert (a + b)[..|a + b| - 1] == a + b[..|b| - 1];
    }
  }

  lemma {:induction false} ReadableLast(es: seq<Event>, decode: Decoder)
    requires es != []
    ensures var r, front, e := Readable(es, decode), Readable(es[..|es| - 1], decode), es[|es| - 1];
            if Decodes(e, decode) then r != [] && r[..|r| - 1] == front && r[|r| - 1] == e else r == front
  {
    var front := Readable(es[..|es| - 1], decode);
    assert front + [] == front;
  }

  lemma {:induction false} AllReadable(es: seq<Event>, decode: Decoder)
    requires AllDecode(es, decode)
    ensures Readable(es, decode) == es
  {
    hide Decodes;
    if es != [] {
      var front, e := es[..|es| - 1], es[|es| - 1];
      assert Decodes(e, decode) && front + [e] == es;
      AllReadable(front, decode);
    }
  }

  lemma {:induction false} LogReadable(log: Log, decode: Decoder)
    requires LogDecodes(log, decode)
    ensures ReadableLog(log, decode) == log
  {
    forall i | 0 <= i < |log| ensures Readable(log[i], decode) == log[i] { AllReadable(log[i], decode); }
  }

  lemma {:induction false} BetweenReadable(log: Log, from: nat, to: nat, decode: Decoder)
    requires from <= to <= |log|
    ensures Between(ReadableLog(log, decode), from, to) == Readable(Between(log, from, to), decode)
  {
    if from < to {
      BetweenReadable(log, from, to - 1, decode);
      ReadableConcat(Between(log, from, to - 1), log[to - 1], decode);
    }
  }

  lemma {:induction false} ApplyReadable(sites: Sites, es: seq<Event>, decode: Decoder, labels: set<string>)
    ensures ApplyAll(sites, Readable(es, decode), decode, labels) == ApplyAll(sites, es, decode, labels)
  {
    if es != [] {
      var front, e := es[..|es| - 1], es[|es| - 1];
      ApplyReadable(sites, front, decode, labels);
      ReadableLast(es, decode);
    }
  }

  // ------------------------------------------------------------------------------------------
  // What a map that reflects different revisions at different sites becomes.

  function LoadAt(log: Log, revision: nat, decode: Decoder, labels: set<string>): Sites
    requires revision <= |log|
  {
    LoadAll(Contents(log, revision), decode, labels)
  }

  /** Where a site's entry comes from: a revision, seen by a load or by the watch. */
  datatype Origin = Origin(revision: nat, loaded: bool)

  function Shown(log: Log, o: Origin, decode: Decoder, labels: set<string>): Sites
    requires o.revision <= |log|
  {
    LoadAt(if o.loaded then log else ReadableLog(log, decode), o.revision, decode, labels)
  }

  /** Each site of the map is as its own origin shows it. */
  ghost predicate AsOf(log: Log, sites: Sites, origin: string -> Origin, newest: nat, decode: Decoder,
                       labels: set<string>)
    requires newest <= |log|
  {
    forall id :: origin(id).revision <= newest && SameAt(sites, Shown(log, origin(id), decode, labels), id)
  }

  /** The events that parse, of the revisions after `from` up to `to`. */
  function Heard(log: Log, from: nat, to: nat, decode: Decoder): seq<Event>
    requires from <= to <= |log|
  {
    Between(ReadableLog(log, decode), from, to)
  }

  /** The origins once the events between two revisions have been applied. */
  ghost function Advanced(log: Log, origin: string -> Origin, from: nat, to: nat, decode: Decoder): string -> Origin
    requires from <= to <= |log|
  {
    id => if Touches(Heard(log, from, to, decode), id) then Origin(to, false) else origin(id)
  }

  lemma {:induction false} LoadUntouched(log: Log, from: nat, to: nat, id: string, decode: Decoder, labels: set<string>)
    requires from <= to <= |log| && LogDecodes(log, decode) && !Touches(Between(log, from, to), id)
    ensures SameAt(LoadAt(log, from, decode, labels), LoadAt(log, to, decode, labels), id)
  {
    hide LoadAll, ApplyAll, Contents, Between;
    WatchRefinesLoad(log, from, to, decode, labels);
    Untouched(LoadAt(log, from, decode, labels), Between(log, from, to), id, decode, labels);
  }

  lemma {:induction false} LoadTouched(log: Log, sites: Sites, from: nat, to: nat, id: string, decode: Decoder,
                                      labels: set<string>)
    requires from <= to <= |log| && LogDecodes(log, decode) && Touches(Between(log, from, to), id)
    ensures SameAt(ApplyAll(sites, Between(log, from, to), decode, labels), LoadAt(log, to, decode, labels), id)
  {
    hide LoadAll, ApplyAll, Contents, Between;
    WatchRefinesLoad(log, from, to, decode, labels);
    BetweenDecodes(log, from, to, decode);
    ReplayAt(sites, LoadAt(log, from, decode, labels), Between(log, from, to), id, decode, labels);
  }

  lemma {:induction false} EventsAdvance(log: Log, sites: Sites, origin: string -> Origin, newest: nat, from: nat,
                                        to: nat, decode: Decoder, labels: set<string>)
    requires from <= to <= |log| && newest <= |log| && AsOf(log, sites, origin, newest, decode, labels)
    ensures AsOf(log, ApplyAll(sites, Between(log, from, to), decode, labels), Advanced(log, origin, from, to, decode),
                 Max(newest, to), decode, labels)
  {
    hide LoadAt, ApplyAll, Between, Touches, SameAt, ReadableLog;
    var after, es := ApplyAll(sites, Between(log, from, to), decode, labels), Heard(log, from, to, decode);
    BetweenReadable(log, from, to, decode);
    ApplyReadable(sites, Between(log, from, to), decode, labels);
    var f := Advanced(log, origin, from, to, decode);
    forall id ensures f(id).revision <= Max(newest, to) && SameAt(after, Shown(log, f(id), decode, labels), id) {
      assert origin(id).revision <= newest && SameAt(sites, Shown(log, origin(id), decode, labels), id);
      if Touches(es, id) {
        LoadTouched(ReadableLog(log, decode), sites, from, to, id, decode, labels);
      } else {
        Untouched(sites, es, id, decode, labels);
        SameTrans(after, sites, Shown(log, origin(id), decode, labels), id);
      }
    }
  }

  lemma {:induction false} SameTrans(a: Sites, b: Sites, c: Sites, id: string)
    requires SameAt(a, b, id) && SameAt(b, c, id)
    ensures SameAt(a, c, id) && SameAt(b, a, id)
  {
  }

  lemma {:induction false} SameEverywhere(a: Sites, b: Sites)
    requires forall id :: SameAt(a, b, id)
    ensures a == b
  {
    forall id ensures id in a <==> id in b { assert SameAt(a, b, id); }
    forall id | id in a ensures a[id] == b[id] { assert SameAt(a, b, id); }
  }

  ghost predicate Converges(log: Log, sites: Sites, cursor: nat, decode: Decoder, labels: set<string>)
    requires cursor <= |log|
  {
    ApplyAll(sites, Between(log, cursor, |log|), decode, labels) == LoadAt(log, |log|, decode, labels)
  }

  /** The site's entry, as the rest of the watch leaves it, is what a load at the newest revision has. */
  ghost predicate EndsRight(log: Log, o: Origin, cursor: nat, id: string, decode: Decoder, labels: set<string>)
    requires o.revision <= |log| && cursor <= |log|
  {
    var n := |log|;
    var last := if Touches(Heard(log, cursor, n, decode), id) then Origin(n, false) else o;
    SameAt(Shown(log, last, decode, labels), LoadAt(log, n, decode, labels), id)
  }

  /** For any payloads: the rest of the watch gives a full load if and only if every site ends right. */
  lemma {:induction false} ConvergesIff(log: Log, sites: Sites, origin: string -> Origin, newest: nat, cursor: nat,
                                       decode: Decoder, labels: set<string>)
    requires newest <= |log| && cursor <= |log| && AsOf(log, sites, origin, newest, decode, labels)
    ensures forall id :: origin(id).revision <= newest
    ensures Converges(log, sites, cursor, decode, labels)
       <==> forall id :: EndsRight(log, origin(id), cursor, id, decode, labels)
  {
    hide LoadAt, ApplyAll, Between, Touches, SameAt, Heard, Shown;
    var n := |log|;
    var after, goal := ApplyAll(sites, Between(log, cursor, n), decode, labels), LoadAt(log, n, decode, labels);
    EventsAdvance(log, sites, origin, newest, cursor, n, decode, labels);
    var f := Advanced(log, origin, cursor, n, decode);
    forall id ensures origin(id).revision <= newest
      ensures EndsRight(log, origin(id), cursor, id, decode, labels) <==> SameAt(after, goal, id)
    {
      assert origin(id).revision <= newest;
      var shown := Shown(log, f(id), decode, labels);
      assert SameAt(after, shown, id);
      SameChain(after, shown, goal, id);
    }
    if forall id :: SameAt(after, goal, id) { SameEverywhere(after, goal); }
    if after == goal {
      forall id ensures SameAt(after, goal, id) { SameSelf(goal, id); }
    }
  }

  lemma {:induction false} SameChain(a: Sites, b: Sites, c: Sites, id: string)
    requires SameAt(a, b, id)
    ensures SameAt(a, c, id) <==> SameAt(b, c, id)
  {
  }

  lemma {:induction false} SameSelf(a: Sites, id: string)
    ensures SameAt(a, a, id)
  {
  }

  /**
   The sites a watch from `cursor` will never put right: changed after the revision the map has
   them at, not later than the cursor, and never again.
   */
  ghost predicate Missed(log: Log, revision: nat, cursor: nat, id: string)
    requires cursor <= |log|
  {
    revision < cursor && Touches(Between(log, revision, cursor), id) && !Touches(Between(log, cursor, |log|), id)
  }

  /**
   When payloads parse, a site ends right if and only if it was not missed, or is configured at the
   cursor as it was at the revision the map has it at.
   */
  lemma {:induction false} EndsRightIff(log: Log, o: Origin, cursor: nat, id: string, decode: Decoder,
                                       labels: set<string>)
    requires o.revision <= |log| && cursor <= |log| && LogDecodes(log, decode)
    ensures EndsRight(log, o, cursor, id, decode, labels)
       <==> (Missed(log, o.revision, cursor, id)
             ==> SameAt(LoadAt(log, o.revision, decode, labels), LoadAt(log, cursor, decode, labels), id))
  {
    hide LoadAt, Between, Touches, SameAt, ReadableLog;
    LogReadable(log, decode);
    var n, r := |log|, o.revision;
    var at, there := LoadAt(log, r, decode, labels), LoadAt(log, cursor, decode, labels);
    var goal := LoadAt(log, n, decode, labels);
    if Touches(Between(log, cursor, n), id) {
      SameSelf(goal, id);
    } else {
      LoadUntouched(log, cursor, n, id, decode, labels);
      if r >= cursor {
        BetweenSplit(log, cursor, r, n);
        TouchesMore(Between(log, cursor, r), Between(log, r, n), id);
        LoadUntouched(log, r, n, id, decode, labels);
      } else {
        if !Touches(Between(log, r, cursor), id) {
          LoadUntouched(log, r, cursor, id, decode, labels);
          SameTrans(at, there, goal, id);
        }
        SameEnds(at, there, goal, id);
      }
    }
  }

  lemma {:induction false} SameEnds(a: Sites, b: Sites, c: Sites, id: string)
    requires SameAt(b, c, id)
    ensures SameAt(a, b, id) <==> SameAt(a, c, id)
  {
  }

  /** So what does not parse matters for a site that is heard of again exactly if its last put is such. */
  lemma {:induction false} HeardOfEndsRightIff(log: Log, o: Origin, cursor: nat, id: SiteId, decode: Decoder,
                                              labels: set<string>)
    requires o.revision <= |log| && cursor <= |log| && Touches(Heard(log, cursor, |log|, decode), id)
    ensures EndsRight(log, o, cursor, id, decode, labels)
       <==> var now := Contents(log, |log|);
            || (id in now ==> decode(now[id]).Some?)
            || id !in LoadAt(ReadableLog(log, decode), |log|, decode, labels)
  {
    hide Contents, Heard, Touches, ReadableLog;
    SameContents(log, |log|, id, decode);
  }

  /**
   A site not heard of again whose current payload does not parse is not in a full load, so it ends
   right exactly if the map has lost it too: a load came last, not the watch.
   */
  lemma {:induction false} UnheardEndsRightIff(log: Log, o: Origin, cursor: nat, id: SiteId, decode: Decoder,
                                              labels: set<string>)
    requires o.revision <= |log| && cursor <= |log| && !Touches(Heard(log, cursor, |log|, decode), id)
    requires var now := Contents(log, |log|); id in now && decode(now[id]).None?
    ensures EndsRight(log, o, cursor, id, decode, labels) <==> id !in Shown(log, o, decode, labels)
    ensures o == Origin(|log|, true) ==> EndsRight(log, o, cursor, id, decode, labels)
  {
    hide Contents, Heard, Touches, ReadableLog;
  }

  /** The contents with and without what does not parse agree where the current payload parses. */
  lemma {:induction false} SameContents(log: Log, r: nat, id: SiteId, decode: Decoder)
    requires r <= |log|
    ensures var all, heard := Contents(log, r), Contents(ReadableLog(log, decode), r);
      && (id !in all ==> id !in heard)
      && (id in all && decode(all[id]).Some? ==> id in heard && heard[id] == all[id])
      && (id in heard ==> decode(heard[id]).Some?)
  {
    hide WriteAll;
    if r > 0 {
      SameContents(log, r - 1, id, decode);
      SameWrites(Contents(log, r - 1), Contents(ReadableLog(log, decode), r - 1), log[r - 1], id, decode);
    }
  }

  lemma {:induction false} SameWrites(all: Raw, heard: Raw, es: seq<Event>, id: SiteId, decode: Decoder)
    requires && (id !in all ==> id !in heard)
             && (id in all && decode(all[id]).Some? ==> id in heard && heard[id] == all[id])
             && (id in heard ==> decode(heard[id]).Some?)
    ensures var all', heard' := WriteAll(all, es), WriteAll(heard, Readable(es, decode));
      && (id !in all' ==> id !in heard')
      && (id in all' && decode(all'[id]).Some? ==> id in heard' && heard'[id] == all'[id])
      && (id in heard' ==> decode(heard'[id]).Some?)
  {
    if es != [] {
      var front, e := es[..|es| - 1], es[|es| - 1];
      SameWrites(all, heard, front, id, decode);
      ReadableLast(es, decode);
    }
  }

  // ------------------------------------------------------------------------------------------
  // Runs: writes by anyone, batches, reconnects and reloads, in any order.

  /** A reload under way: the revision its GET saw, and whether it has raised the last revision. */
  datatype Reload = Reload(revision: nat, noted: bool)

  /** A batch under way: the copy of the live map it works on, and its last revision. */
  datatype Batch = Batch(copy: Sites, to: nat)

  /** `cursor` is the revision up to which the open watch has delivered. */
  datatype Watch = Watch(
    log: Log, live: Sites, lastRevision: nat, cursor: nat, reloads: seq<Reload>, batch: Option<Batch>)

  /**
   A reload is a GET, the raising of the last revision and the storing of the map.  A batch is read
   from the stream, and later its map is swapped in; the last revision, which only the watching task
   reads, is raised with it.
   */
  datatype Action = Write(events: seq<Event>) | Get | Note(i: nat) | Store(i: nat) | Deliver(to: nat) | Swap | Reconnect

  /** A node whose first load failed, or found etcd empty: it watches from revision 1. */
  function Start(log: Log): Watch {
    Watch(log, map[], 0, 0, [], None)
  }

  predicate Bounded(w: Watch) {
    && w.cursor <= w.lastRevision <= |w.log|
    && (forall i | 0 <= i < |w.reloads| ::
          && w.reloads[i].revision <= |w.log|
          && (w.reloads[i].noted ==> w.reloads[i].revision <= w.lastRevision))
    && (w.batch.Some? ==> w.cursor < w.batch.value.to <= |w.log|)
  }

  /** The `changed` flag: a batch that removes nothing present and sets nothing is not stored. */
  predicate Changes(sites: Sites, es: seq<Event>, decode: Decoder, labels: set<string>) {
    es != [] &&
    var front, e := es[..|es| - 1], es[|es| - 1];
    || Changes(sites, front, decode, labels)
    || e.Delete?
    || (decode(e.payload).Some?
        && (LabelsMatch(decode(e.payload).value, labels) || e.site in ApplyAll(sites, front, decode, labels)))
  }

  lemma {:induction false} Unchanged(sites: Sites, es: seq<Event>, decode: Decoder, labels: set<string>)
    requires !Changes(sites, es, decode, labels)
    ensures ApplyAll(sites, es, decode, labels) == sites
  {
    if es != [] { Unchanged(sites, es[..|es| - 1], decode, labels); }
  }

  predicate Storable(w: Watch, i: nat) {
    i < |w.reloads| && w.reloads[i].noted
  }

  /** A batch ends at a revision with site events; etcd sends nothing for the others. */
  predicate Deliverable(w: Watch, to: nat) {
    w.batch.None? && w.cursor < to <= |w.log| && w.log[to - 1] != []
  }

  function InHand(w: Watch): seq<Event>
    requires Bounded(w) && w.batch.Some?
  {
    Between(w.log, w.cursor, w.batch.value.to)
  }

  /** What is not possible in a state does nothing there. */
  function Next(w: Watch, a: Action, decode: Decoder, labels: set<string>): (v: Watch)
    requires Bounded(w)
    ensures Bounded(v)
  {
    match a
    case Write(es) => w.(log := w.log + [es])
    case Get => w.(reloads := w.reloads + [Reload(|w.log|, false)])
    case Note(i) =>
      if i >= |w.reloads| then w
      else w.(reloads := w.reloads[i := w.reloads[i].(noted := true)],
              lastRevision := Max(w.lastRevision, w.reloads[i].revision))
    case Store(i) =>
      if !Storable(w, i) then w
      else w.(live := LoadAt(w.log, w.reloads[i].revision, decode, labels),
              reloads := w.reloads[..i] + w.reloads[i + 1..])
    case Deliver(to) => if Deliverable(w, to) then w.(batch := Some(Batch(w.live, to))) else w
    case Swap =>
      if w.batch.None? then w
      else
        var copy, to, es := w.batch.value.copy, w.batch.value.to, InHand(w);
        w.(live := if Changes(copy, es, decode, labels) then ApplyAll(copy, es, decode, labels) else w.live,
           lastRevision := Max(w.lastRevision, to), cursor := to, batch := None)
    case Reconnect => if w.batch.Some? then w else w.(cursor := w.lastRevision)
  }

  /** A run with, for the live map and for the copy in hand, the origin of each site. */
  datatype History = History(w: Watch, live: string -> Origin, copy: string -> Origin)

  /** The batch's result is the live map afterwards. */
  ghost predicate TakesEffect(w: Watch, decode: Decoder, labels: set<string>)
    requires Bounded(w) && w.batch.Some?
  {
    w.live == w.batch.value.copy || Changes(w.batch.value.copy, InHand(w), decode, labels)
  }

  ghost function Everywhere(o: Origin): string -> Origin { id => o }

  ghost function Step(h: History, a: Action, decode: Decoder, labels: set<string>): (r: History)
    requires Bounded(h.w)
    ensures Bounded(r.w)
  {
    var w, v := h.w, Next(h.w, a, decode, labels);
    match a
    case Store(i) =>
      History(v, if Storable(w, i) then Everywhere(Origin(w.reloads[i].revision, true)) else h.live, h.copy)
    case Deliver(to) => History(v, h.live, if Deliverable(w, to) then h.live else h.copy)
    case Swap =>
      if w.batch.Some? && TakesEffect(w, decode, labels)
      then History(v, Advanced(w.log, h.copy, w.cursor, w.batch.value.to, decode), h.copy)
      else History(v, h.live, h.copy)
    case _ => History(v, h.live, h.copy)
  }

  ghost function Begin(log: Log): History {
    History(Start(log), Everywhere(Origin(0, true)), Everywhere(Origin(0, true)))
  }

  ghost function Run(log: Log, actions: seq<Action>, decode: Decoder, labels: set<string>): (h: History)
    ensures Bounded(h.w)
  {
    if actions == [] then Begin(log)
    else Step(Run(log, actions[..|actions| - 1], decode, labels), actions[|actions| - 1], decode, labels)
  }

  ghost predicate Inv(h: History, decode: Decoder, labels: set<string>) {
    && Bounded(h.w)
    && AsOf(h.w.log, h.w.live, h.live, h.w.lastRevision, decode, labels)
    && (h.w.batch.Some? ==> AsOf(h.w.log, h.w.batch.value.copy, h.copy, h.w.lastRevision, decode, labels))
  }

  lemma {:induction false} Prefix(log: Log, es: seq<Event>, from: nat, r: nat)
    requires from <= r <= |log|
    ensures Between(log + [es], from, r) == Between(log, from, r)
    ensures Contents(log + [es], r) == Contents(log, r)
    decreases r
  {
    if r > 0 {
      Prefix(log, es, if from < r then from else 0, r - 1);
    }
  }

  lemma {:induction false} ReadablePrefix(log: Log, es: seq<Event>, decode: Decoder)
    ensures ReadableLog(log + [es], decode) == ReadableLog(log, decode) + [Readable(es, decode)]
  {
  }

  lemma {:induction false} ShownPrefix(log: Log, es: seq<Event>, o: Origin, decode: Decoder, labels: set<string>)
    requires o.revision <= |log|
    ensures Shown(log + [es], o, decode, labels) == Shown(log, o, decode, labels)
  {
    hide LoadAll, Contents, Between, ReadableLog;
    ReadablePrefix(log, es, decode);
    Prefix(log, es, 0, o.revision);
    Prefix(ReadableLog(log, decode), Readable(es, decode), 0, o.revision);
  }

  lemma {:induction false} AsOfPrefix(log: Log, es: seq<Event>, sites: Sites, origin: string -> Origin, newest: nat,
                                     decode: Decoder, labels: set<string>)
    requires newest <= |log| && AsOf(log, sites, origin, newest, decode, labels)
    ensures AsOf(log + [es], sites, origin, newest, decode, labels)
  {
    hide Shown, SameAt;
    forall id
      ensures origin(id).revision <= newest && SameAt(sites, Shown(log + [es], origin(id), decode, labels), id)
    {
      assert origin(id).revision <= newest && SameAt(sites, Shown(log, origin(id), decode, labels), id);
      ShownPrefix(log, es, origin(id), decode, labels);
    }
  }

  lemma {:induction false} AsOfLater(log: Log, sites: Sites, origin: string -> Origin, newest: nat, later: nat,
                                    decode: Decoder, labels: set<string>)
    requires newest <= later <= |log| && AsOf(log, sites, origin, newest, decode, labels)
    ensures AsOf(log, sites, origin, later, decode, labels)
  {
    hide Shown, SameAt;
    forall id ensures origin(id).revision <= later && SameAt(sites, Shown(log, origin(id), decode, labels), id) {
      assert origin(id).revision <= newest;
    }
  }

  lemma {:induction false} SwapKeeps(h: History, decode: Decoder, labels: set<string>)
    requires Inv(h, decode, labels) && h.w.batch.Some?
    ensures Inv(Step(h, Swap, decode, labels), decode, labels)
  {
    hide AsOf, ApplyAll, Changes, Between, Advanced;
    var w, to := h.w, h.w.batch.value.to;
    var copy, es := w.batch.value.copy, InHand(w);
    if TakesEffect(w, decode, labels) {
      if !Changes(copy, es, decode, labels) { Unchanged(copy, es, decode, labels); }
      EventsAdvance(w.log, copy, h.copy, w.lastRevision, w.cursor, to, decode, labels);
    } else {
      AsOfLater(w.log, w.live, h.live, w.lastRevision, Max(w.lastRevision, to), decode, labels);
    }
  }

  lemma {:induction false} LoadedAsOf(log: Log, r: nat, newest: nat, decode: Decoder, labels: set<string>)
    requires r <= newest <= |log|
    ensures AsOf(log, LoadAt(log, r, decode, labels), Everywhere(Origin(r, true)), newest, decode, labels)
  {
    hide LoadAt;
  }

  lemma {:induction false} StepKeeps(h: History, a: Action, decode: Decoder, labels: set<string>)
    requires Inv(h, decode, labels)
    ensures Inv(Step(h, a, decode, labels), decode, labels)
  {
    hide LoadAt, ApplyAll, Between, Changes, Advanced, AsOf, Everywhere;
    var w := h.w;
    match a {
      case Write(es) =>
        AsOfPrefix(w.log, es, w.live, h.live, w.lastRevision, decode, labels);
        if w.batch.Some? { AsOfPrefix(w.log, es, w.batch.value.copy, h.copy, w.lastRevision, decode, labels); }
      case Note(i) =>
        if i < |w.reloads| {
          var later := Max(w.lastRevision, w.reloads[i].revision);
          AsOfLater(w.log, w.live, h.live, w.lastRevision, later, decode, labels);
          if w.batch.Some? {
            AsOfLater(w.log, w.batch.value.copy, h.copy, w.lastRevision, later, decode, labels);
          }
        }
      case Store(i) =>
        if Storable(w, i) { LoadedAsOf(w.log, w.reloads[i].revision, w.lastRevision, decode, labels); }
      case Swap => if w.batch.Some? { SwapKeeps(h, decode, labels); }
      case Get =>
      case Deliver(to) =>
      case Reconnect =>
    }
  }

  /** Every run, however its steps interleave: each site of the live map is as its origin shows it. */
  lemma {:induction false} EveryRun(log: Log, actions: seq<Action>, decode: Decoder, labels: set<string>)
    ensures Inv(Run(log, actions, decode, labels), decode, labels)
  {
    hide Inv, Step;
    if actions == [] {
      StartHolds(log, decode, labels);
    } else {
      var front := actions[..|actions| - 1];
      EveryRun(log, front, decode, labels);
      StepKeeps(Run(log, front, decode, labels), actions[|actions| - 1], decode, labels);
    }
  }

  lemma {:induction false} StartHolds(log: Log, decode: Decoder, labels: set<string>)
    ensures Inv(Begin(log), decode, labels) && Kept(Begin(log), decode)
  {
    assert LoadAt(log, 0, decode, labels) == map[];
  }

  /**
   After any run, whatever was written: the rest of the watch brings the live map to what a full
   load builds if and only if every site ends right.
   */
  lemma {:induction false} LiveMapFollowsEtcdIff(log: Log, actions: seq<Action>, decode: Decoder, labels: set<string>)
    ensures var h := Run(log, actions, decode, labels);
      && (forall id :: h.live(id).revision <= h.w.lastRevision)
      && (Converges(h.w.log, h.w.live, h.w.cursor, decode, labels)
          <==> forall id :: EndsRight(h.w.log, h.live(id), h.w.cursor, id, decode, labels))
  {
    hide Run, Converges, EndsRight, AsOf;
    EveryRun(log, actions, decode, labels);
    var h := Run(log, actions, decode, labels);
    ConvergesIff(h.w.log, h.w.live, h.live, h.w.lastRevision, h.w.cursor, decode, labels);
  }

  predicate WritesDecode(actions: seq<Action>, decode: Decoder) {
    forall i | 0 <= i < |actions| && actions[i].Write? :: AllDecode(actions[i].events, decode)
  }

  lemma {:induction false} OnlyWritesWrite(w: Watch, a: Action, decode: Decoder, labels: set<string>)
    requires Bounded(w)
    ensures Next(w, a, decode, labels).log == if a.Write? then w.log + [a.events] else w.log
  {
  }

  lemma {:induction false} RunDecodes(log: Log, actions: seq<Action>, decode: Decoder, labels: set<string>)
    requires LogDecodes(log, decode) && WritesDecode(actions, decode)
    ensures LogDecodes(Run(log, actions, decode, labels).w.log, decode)
  {
    hide AllDecode, Next;
    if actions != [] {
      var front, a := actions[..|actions| - 1], actions[|actions| - 1];
      assert forall i | 0 <= i < |front| :: front[i] == actions[i];
      RunDecodes(log, front, decode, labels);
      OnlyWritesWrite(Run(log, front, decode, labels).w, a, decode, labels);
    }
  }

  /**
   When payloads parse: if and only if every site it has missed is configured alike at the cursor
   and at the revision the map has it at.
   */
  lemma {:induction false} MissedSitesDecide(log: Log, actions: seq<Action>, decode: Decoder, labels: set<string>)
    requires LogDecodes(log, decode) && WritesDecode(actions, decode)
    ensures var h := Run(log, actions, decode, labels);
      && (forall id :: h.live(id).revision <= h.w.lastRevision)
      && (Converges(h.w.log, h.w.live, h.w.cursor, decode, labels)
          <==> forall id | Missed(h.w.log, h.live(id).revision, h.w.cursor, id) ::
                 SameAt(LoadAt(h.w.log, h.live(id).revision, decode, labels),
                        LoadAt(h.w.log, h.w.cursor, decode, labels), id))
  {
    hide Run, Converges, EndsRight, Missed, LoadAt, SameAt, LogDecodes;
    RunDecodes(log, actions, decode, labels);
    LiveMapFollowsEtcdIff(log, actions, decode, labels);
    var h := Run(log, actions, decode, labels);
    forall id
      ensures EndsRight(h.w.log, h.live(id), h.w.cursor, id, decode, labels)
         <==> (Missed(h.w.log, h.live(id).revision, h.w.cursor, id)
               ==> SameAt(LoadAt(h.w.log, h.live(id).revision, decode, labels),
                          LoadAt(h.w.log, h.w.cursor, decode, labels), id))
    {
      EndsRightIff(h.w.log, h.live(id), h.w.cursor, id, decode, labels);
    }
  }

  // ------------------------------------------------------------------------------------------
  // Runs in which nothing is missed.

  /** What the watch has delivered, or is about to. */
  function Target(w: Watch): nat {
    if w.batch.Some? then w.batch.value.to else w.cursor
  }

  /**
   A reload is stored only if it is not older than the watch, and the watch is reopened only when
   the live map is nowhere older than the revision it resumes from.
   */
  ghost predicate Orderly(h: History, a: Action) {
    && (a.Store? && Storable(h.w, a.i) ==> h.w.reloads[a.i].revision >= Target(h.w))
    && (a.Reconnect? && h.w.cursor < h.w.lastRevision ==> forall id :: h.live(id).revision >= h.w.lastRevision)
  }

  ghost predicate OrderlyRun(log: Log, actions: seq<Action>, decode: Decoder, labels: set<string>) {
    actions != [] ==>
      var front, a := actions[..|actions| - 1], actions[|actions| - 1];
      OrderlyRun(log, front, decode, labels) && Orderly(Run(log, front, decode, labels), a)
  }

  /** No site of the map was heard of between the revision the map has it at and the cursor. */
  ghost predicate UpToDate(log: Log, origin: string -> Origin, cursor: nat, decode: Decoder)
    requires cursor <= |log|
  {
    forall id | origin(id).revision < cursor :: !Touches(Heard(log, origin(id).revision, cursor, decode), id)
  }

  ghost predicate Kept(h: History, decode: Decoder)
    requires Bounded(h.w)
  {
    && UpToDate(h.w.log, h.live, h.w.cursor, decode)
    && (h.w.batch.Some? ==>
          && UpToDate(h.w.log, h.copy, h.w.cursor, decode)
          && ((h.w.live == h.w.batch.value.copy && forall id :: h.live(id) == h.copy(id))
              || forall id :: h.live(id).revision >= h.w.batch.value.to))
  }

  lemma {:induction false} UpToDatePrefix(log: Log, es: seq<Event>, origin: string -> Origin, cursor: nat,
                                         decode: Decoder)
    requires cursor <= |log| && UpToDate(log, origin, cursor, decode)
    ensures UpToDate(log + [es], origin, cursor, decode)
  {
    hide Between, Touches, ReadableLog;
    ReadablePrefix(log, es, decode);
    forall id | origin(id).revision < cursor
      ensures !Touches(Heard(log + [es], origin(id).revision, cursor, decode), id)
    {
      Prefix(ReadableLog(log, decode), Readable(es, decode), origin(id).revision, cursor);
    }
  }

  lemma {:induction false} UpToDateAdvances(log: Log, origin: string -> Origin, cursor: nat, to: nat, decode: Decoder)
    requires cursor <= to <= |log| && UpToDate(log, origin, cursor, decode)
    ensures UpToDate(log, Advanced(log, origin, cursor, to, decode), to, decode)
  {
    hide Between, Touches, ReadableLog;
    var f, heard := Advanced(log, origin, cursor, to, decode), ReadableLog(log, decode);
    forall id | f(id).revision < to ensures !Touches(Heard(log, f(id).revision, to, decode), id) {
      var r := origin(id).revision;
      if r < cursor {
        BetweenSplit(heard, r, cursor, to);
        TouchesMore(Between(heard, r, cursor), Between(heard, cursor, to), id);
      } else {
        BetweenSplit(heard, cursor, r, to);
        TouchesMore(Between(heard, cursor, r), Between(heard, r, to), id);
      }
    }
  }

  lemma {:induction false} OrderlyStep(h: History, a: Action, decode: Decoder, labels: set<string>)
    requires Bounded(h.w) && Kept(h, decode) && Orderly(h, a)
    ensures Kept(Step(h, a, decode, labels), decode)
  {
    hide LoadAt, ApplyAll, Heard, Changes, Touches, Advanced, InHand;
    var w := h.w;
    match a {
      case Write(es) =>
        UpToDatePrefix(w.log, es, h.live, w.cursor, decode);
        if w.batch.Some? { UpToDatePrefix(w.log, es, h.copy, w.cursor, decode); }
      case Swap =>
        if w.batch.Some? { UpToDateAdvances(w.log, h.copy, w.cursor, w.batch.value.to, decode); }
      case Store(i) =>
      case Note(i) =>
      case Get =>
      case Deliver(to) =>
      case Reconnect =>
    }
  }

  lemma {:induction false} EveryOrderlyRun(log: Log, actions: seq<Action>, decode: Decoder, labels: set<string>)
    requires OrderlyRun(log, actions, decode, labels)
    ensures Kept(Run(log, actions, decode, labels), decode)
  {
    hide Kept, Step, Orderly;
    if actions == [] {
      StartHolds(log, decode, labels);
    } else {
      var front := actions[..|actions| - 1];
      EveryOrderlyRun(log, front, decode, labels);
      OrderlyStep(Run(log, front, decode, labels), actions[|actions| - 1], decode, labels);
    }
  }

  /**
   In every orderly run the live map, once the watch has caught up with the newest revision it
   knows of, is what a full load at that revision builds; and what is still to be delivered turns it
   into a full load at the newest revision of all.
   */
  lemma {:induction false} LiveMapFollowsEtcd(log: Log, actions: seq<Action>, decode: Decoder, labels: set<string>)
    requires LogDecodes(log, decode) && WritesDecode(actions, decode) && OrderlyRun(log, actions, decode, labels)
    ensures var w := Run(log, actions, decode, labels).w;
      && Converges(w.log, w.live, w.cursor, decode, labels)
      && (w.cursor == w.lastRevision ==> w.live == LoadAt(w.log, w.lastRevision, decode, labels))
  {
    hide Run, OrderlyRun, LoadAt, SameAt, LogDecodes, Converges, Between, Touches, ReadableLog;
    RunDecodes(log, actions, decode, labels);
    EveryRun(log, actions, decode, labels);
    EveryOrderlyRun(log, actions, decode, labels);
    MissedSitesDecide(log, actions, decode, labels);
    var h := Run(log, actions, decode, labels);
    LogReadable(h.w.log, decode);
    if h.w.cursor == h.w.lastRevision { CaughtUp(h, decode, labels); }
  }

  lemma {:induction false} CaughtUp(h: History, decode: Decoder, labels: set<string>)
    requires Inv(h, decode, labels) && LogDecodes(h.w.log, decode) && Kept(h, decode)
    requires h.w.cursor == h.w.lastRevision
    ensures h.w.live == LoadAt(h.w.log, h.w.lastRevision, decode, labels)
  {
    hide LoadAt, SameAt, LogDecodes, Between, Touches, ReadableLog;
    var w, full := h.w, LoadAt(h.w.log, h.w.lastRevision, decode, labels);
    LogReadable(w.log, decode);
    forall id ensures SameAt(w.live, full, id) {
      var r := h.live(id).revision;
      assert r <= w.lastRevision && SameAt(w.live, Shown(w.log, h.live(id), decode, labels), id);
      if r < w.cursor {
        LoadUntouched(w.log, r, w.cursor, id, decode, labels);
        SameTrans(w.live, LoadAt(w.log, r, decode, labels), full, id);
      }
    }
    SameEverywhere(w.live, full);
  }

  // ------------------------------------------------------------------------------------------
  // The two ways to miss an update, and exactly when they do no harm.

  lemma {:induction false} LoadConvergesIff(log: Log, r: nat, cursor: nat, decode: Decoder, labels: set<string>)
    requires r <= |log| && cursor <= |log| && LogDecodes(log, decode)
    ensures Converges(log, LoadAt(log, r, decode, labels), cursor, decode, labels)
       <==> forall id | Missed(log, r, cursor, id) ::
              SameAt(LoadAt(log, r, decode, labels), LoadAt(log, cursor, decode, labels), id)
  {
    hide LoadAt, Missed, Converges, LogDecodes, SameAt, EndsRight, AsOf;
    var o := Origin(r, true);
    var f, at, there := Everywhere(o), LoadAt(log, r, decode, labels), LoadAt(log, cursor, decode, labels);
    LoadedAsOf(log, r, |log|, decode, labels);
    ConvergesIff(log, at, f, |log|, cursor, decode, labels);
    forall id
      ensures f(id) == o
      ensures EndsRight(log, f(id), cursor, id, decode, labels)
         <==> (Missed(log, r, cursor, id) ==> SameAt(at, there, id))
    {
      EndsRightIff(log, o, cursor, id, decode, labels);
    }
  }

  /** Storing a reload, in any state. */
  lemma {:induction false} StoreIsHarmlessIff(w: Watch, i: nat, decode: Decoder, labels: set<string>)
    requires Bounded(w) && Storable(w, i) && LogDecodes(w.log, decode)
    ensures var v, r := Next(w, Store(i), decode, labels), w.reloads[i].revision;
      Converges(v.log, v.live, v.cursor, decode, labels)
      <==> forall id | Missed(w.log, r, w.cursor, id) ::
             SameAt(LoadAt(w.log, r, decode, labels), LoadAt(w.log, w.cursor, decode, labels), id)
  {
    hide LoadAt, Missed, Converges, LogDecodes;
    LoadConvergesIff(w.log, w.reloads[i].revision, w.cursor, decode, labels);
  }

  /** The watch delivers up to `to` and then breaks and is reopened. */
  function BatchThenReconnect(w: Watch, to: nat, decode: Decoder, labels: set<string>): (v: Watch)
    requires Bounded(w)
    ensures Bounded(v)
  {
    Next(Next(Next(w, Deliver(to), decode, labels), Swap, decode, labels), Reconnect, decode, labels)
  }

  /**
   A batch older than the map a reload has stored, then a reconnect: the map is still that load if
   and only if every site the batch touched is configured at the batch's end as it is in the load.
   */
  lemma {:induction false} ReconnectIsHarmlessIff(w: Watch, to: nat, decode: Decoder, labels: set<string>)
    requires Bounded(w) && Deliverable(w, to) && to <= w.lastRevision && LogDecodes(w.log, decode)
    requires w.live == LoadAt(w.log, w.lastRevision, decode, labels)
    ensures var v, now := BatchThenReconnect(w, to, decode, labels), LoadAt(w.log, w.lastRevision, decode, labels);
      && v.cursor == v.lastRevision == w.lastRevision
      && (v.live == now
          <==> forall id | Touches(Between(w.log, w.cursor, to), id) ::
                 SameAt(LoadAt(w.log, to, decode, labels), now, id))
      && (Converges(v.log, v.live, v.cursor, decode, labels)
          <==> forall id | Touches(Between(w.log, w.cursor, to), id) && Missed(w.log, to, w.lastRevision, id) ::
                 SameAt(LoadAt(w.log, to, decode, labels), now, id))
  {
    hide LoadAt, ApplyAll, Changes, Between, Touches, Converges, LogDecodes, Missed;
    var es, newest, now := Between(w.log, w.cursor, to), w.lastRevision, LoadAt(w.log, w.lastRevision, decode, labels);
    var v := BatchThenReconnect(w, to, decode, labels);
    if !Changes(w.live, es, decode, labels) { Unchanged(w.live, es, decode, labels); }
    assert v.live == ApplyAll(now, es, decode, labels);
    BatchOverLoad(w.log, w.cursor, to, newest, decode, labels);
    OlderBatch(w.log, w.cursor, to, newest, decode, labels);
  }

  lemma {:induction false} BatchOverLoad(log: Log, from: nat, to: nat, newest: nat, decode: Decoder,
                                         labels: set<string>)
    requires from <= to <= newest <= |log| && LogDecodes(log, decode)
    ensures var es, now := Between(log, from, to), LoadAt(log, newest, decode, labels);
      ApplyAll(now, es, decode, labels) == now
      <==> forall id | Touches(es, id) :: SameAt(LoadAt(log, to, decode, labels), now, id)
  {
    hide LoadAt, ApplyAll, Between, Touches, SameAt, LogDecodes;
    var es, now, past := Between(log, from, to), LoadAt(log, newest, decode, labels), LoadAt(log, to, decode, labels);
    var after := ApplyAll(now, es, decode, labels);
    forall id
      ensures if Touches(es, id) then SameAt(after, past, id) && SameAt(past, after, id) else SameAt(after, now, id)
    {
      if Touches(es, id) {
        LoadTouched(log, now, from, to, id, decode, labels);
        SameBack(after, past, id);
      } else {
        Untouched(now, es, id, decode, labels);
      }
    }
    if forall id | Touches(es, id) :: SameAt(past, now, id) {
      forall id ensures SameAt(after, now, id) {
        if Touches(es, id) { SameTrans(after, past, now, id); }
      }
      SameEverywhere(after, now);
    }
  }

  lemma {:induction false} SameBack(a: Sites, b: Sites, id: string)
    requires SameAt(a, b, id)
    ensures SameAt(b, a, id)
  {
  }

  lemma {:induction false} OlderBatch(log: Log, from: nat, to: nat, newest: nat, decode: Decoder, labels: set<string>)
    requires from <= to <= newest <= |log| && LogDecodes(log, decode)
    ensures var es, now := Between(log, from, to), LoadAt(log, newest, decode, labels);
      Converges(log, ApplyAll(now, es, decode, labels), newest, decode, labels)
      <==> forall id | Touches(es, id) && Missed(log, to, newest, id) ::
             SameAt(LoadAt(log, to, decode, labels), now, id)
  {
    hide LoadAt, ApplyAll, Between, Touches, LogDecodes, Converges, SameAt, EndsRight, AsOf, ReadableLog;
    var es, now, past := Between(log, from, to), LoadAt(log, newest, decode, labels), LoadAt(log, to, decode, labels);
    var loaded := Everywhere(Origin(newest, true));
    var f := Advanced(log, loaded, from, to, decode);
    LogReadable(log, decode);
    LoadedAsOf(log, newest, newest, decode, labels);
    EventsAdvance(log, now, loaded, newest, from, to, decode, labels);
    ConvergesIff(log, ApplyAll(now, es, decode, labels), f, newest, newest, decode, labels);
    forall id
      ensures EndsRight(log, f(id), newest, id, decode, labels)
         <==> (Touches(es, id) && Missed(log, to, newest, id) ==> SameAt(past, now, id))
    {
      assert Heard(log, from, to, decode) == es && loaded(id) == Origin(newest, true);
      assert f(id).revision == if Touches(es, id) then to else newest;
      EndsRightIff(log, f(id), newest, id, decode, labels);
    }
  }

  lemma {:induction false} RunOfSix(log: Log, a: Action, b: Action, c: Action, d: Action, e: Action, f: Action,
                                   decode: Decoder, labels: set<string>)
    ensures var w := Next(Next(Next(Start(log), a, decode, labels), b, decode, labels), c, decode, labels);
      Run(log, [a, b, c, d, e, f], decode, labels).w
      == Next(Next(Next(w, d, decode, labels), e, decode, labels), f, decode, labels)
  {
    hide Run, Next, Bounded;
    assert Run(log, [], decode, labels).w == Start(log) by { RunNothing(log, decode, labels); }
    RunMore(log, [], a, decode, labels);
    RunMore(log, [a], b, decode, labels);
    RunMore(log, [a, b], c, decode, labels);
    RunMore(log, [a, b, c], d, decode, labels);
    RunMore(log, [a, b, c, d], e, decode, labels);
    RunMore(log, [a, b, c, d, e], f, decode, labels);
    assert [] + [a] == [a] && [a] + [b] == [a, b] && [a, b] + [c] == [a, b, c] && [a, b, c] + [d] == [a, b, c, d];
    assert [a, b, c, d] + [e] == [a, b, c, d, e] && [a, b, c, d, e] + [f] == [a, b, c, d, e, f];
  }

  lemma {:induction false} RunNothing(log: Log, decode: Decoder, labels: set<string>)
    ensures Run(log, [], decode, labels).w == Start(log)
  {
  }

  lemma {:induction false} RunMore(log: Log, actions: seq<Action>, a: Action, decode: Decoder, labels: set<string>)
    ensures Run(log, actions + [a], decode, labels).w == Next(Run(log, actions, decode, labels).w, a, decode, labels)
  {
    hide Next;
    assert (actions + [a])[..|actions + [a]| - 1] == actions;
  }

  lemma {:induction false} NothingToDeliver(log: Log, sites: Sites, decode: Decoder, labels: set<string>)
    ensures Converges(log, sites, |log|, decode, labels) <==> sites == LoadAt(log, |log|, decode, labels)
  {
    hide LoadAt;
  }

  /**
   On any log: a reload at the newest revision, then a batch that ends earlier, then a reconnect.
   The watch has nothing left to deliver, and the map is the current one if and only if the sites
   of the batch are configured at its end as they are now.
   */
  lemma {:induction false} ReconnectAfterStaleBatch(log: Log, to: nat, decode: Decoder, labels: set<string>)
    requires 1 <= to <= |log| && log[to - 1] != [] && LogDecodes(log, decode)
    ensures var n, w := |log|, Run(log, [Get, Note(0), Store(0), Deliver(to), Swap, Reconnect], decode, labels).w;
      && w.log == log && w.cursor == w.lastRevision == n
      && (w.live == LoadAt(log, n, decode, labels)
          <==> forall id | Touches(Between(log, 0, to), id) ::
                 SameAt(LoadAt(log, to, decode, labels), LoadAt(log, n, decode, labels), id))
  {
    hide LoadAt, ApplyAll, Changes, Between, Touches, Converges, LogDecodes, Missed, Run;
    var w := Next(Next(Next(Start(log), Get, decode, labels), Note(0), decode, labels), Store(0), decode, labels);
    assert w == Watch(log, LoadAt(log, |log|, decode, labels), |log|, 0, [], None);
    RunOfSix(log, Get, Note(0), Store(0), Deliver(to), Swap, Reconnect, decode, labels);
    ReconnectIsHarmlessIff(w, to, decode, labels);
  }

  lemma {:induction false} OvertakenReload(log: Log, es: seq<Event>, decode: Decoder, labels: set<string>)
    requires es != []
    ensures var n, later := |log|, log + [es];
      Run(log, [Get, Write(es), Note(0), Deliver(|log| + 1), Swap, Store(0)], decode, labels).w
      == Watch(later, LoadAt(later, n, decode, labels), n + 1, n + 1, [], None)
  {
    hide LoadAt, ApplyAll, Changes, Between, Run;
    var n, later := |log|, log + [es];
    var w := Next(Next(Next(Start(log), Get, decode, labels), Write(es), decode, labels), Note(0), decode, labels);
    assert w == Watch(later, map[], n, 0, [Reload(n, true)], None);
    RunOfSix(log, Get, Write(es), Note(0), Deliver(n + 1), Swap, Store(0), decode, labels);
  }

  /**
   On any log: a write delivered between a reload's GET and its store.  The watch has nothing left
   to deliver, and the map is the current one if and only if the write changed no configuration.
   */
  lemma {:induction false} StoreAfterNewerBatch(log: Log, es: seq<Event>, decode: Decoder, labels: set<string>)
    requires es != [] && LogDecodes(log + [es], decode)
    ensures var n := |log|;
      var w := Run(log, [Get, Write(es), Note(0), Deliver(n + 1), Swap, Store(0)], decode, labels).w;
      && w.log == log + [es] && w.cursor == w.lastRevision == n + 1
      && (w.live == LoadAt(w.log, n + 1, decode, labels)
          <==> forall id | Touches(es, id) ::
                 SameAt(LoadAt(w.log, n, decode, labels), LoadAt(w.log, n + 1, decode, labels), id))
  {
    hide LoadAt, Between, Touches, Converges, LogDecodes, Missed, Run, SameAt;
    var n, later := |log|, log + [es];
    OvertakenReload(log, es, decode, labels);
    LoadConvergesIff(later, n, n + 1, decode, labels);
    NothingToDeliver(later, LoadAt(later, n, decode, labels), decode, labels);
    forall id ensures Missed(later, n, n + 1, id) <==> Touches(es, id) { LastEvents(log, es, id); }
    var past, now := LoadAt(later, n, decode, labels), LoadAt(later, n + 1, decode, labels);
    assert past == now <==> Converges(later, past, n + 1, decode, labels);
    assert Converges(later, past, n + 1, decode, labels) <==> forall id | Touches(es, id) :: SameAt(past, now, id);
  }

  lemma {:induction false} LastEvents(log: Log, es: seq<Event>, id: string)
    ensures Missed(log + [es], |log|, |log| + 1, id) <==> Touches(es, id)
  {
    var n, later := |log|, log + [es];
    NothingBetween(later, n);
    NothingBetween(later, n + 1);
    assert [] + es == es;
  }

  lemma {:induction false} NothingBetween(log: Log, r: nat)
    requires r <= |log|
    ensures Between(log, r, r) == []
  {
  }

  /** Two versions of one site, both served: the loads at the two revisions differ there. */
  lemma {:induction false} TwoUpdates(id: SiteId, stale: seq<Byte>, current: seq<Byte>, decode: Decoder,
                                     labels: set<string>)
    requires decode(stale).Some? && decode(current).Some? && decode(stale) != decode(current)
    requires LabelsMatch(decode(stale).value, labels) && LabelsMatch(decode(current).value, labels)
    ensures var log: Log := [[Put(id, stale)], [Put(id, current)]];
      && LogDecodes(log, decode) && Touches(Between(log, 0, 1), id) && Touches(log[1], id)
      && !SameAt(LoadAt(log, 1, decode, labels), LoadAt(log, 2, decode, labels), id)
  {
    hide Contents, WriteAll, Between, LabelsMatch;
    var log: Log := [[Put(id, stale)], [Put(id, current)]];
    SingleEvent(log, 1, Put(id, stale));
    SingleEvent(log, 2, Put(id, current));
    assert Contents(log, 1)[id] == stale && Contents(log, 2)[id] == current;
    assert Between(log, 0, 1)[0].site == id && log[1][0].site == id;
  }

  lemma {:induction false} SingleEvent(log: Log, r: nat, e: Event)
    requires 1 <= r <= |log| && log[r - 1] == [e]
    ensures Contents(log, r) == WriteRaw(Contents(log, r - 1), e) && Between(log, r - 1, r) == [e]
  {
    var m := Contents(log, r - 1);
    assert [e][..0] == [];
    assert WriteAll(m, [e]) == WriteRaw(WriteAll(m, []), e);
    NothingBetween(log, r - 1);
    assert [] + [e] == [e];
  }

  /**
   Reopening the watch after a stale batch can lose an update for good: the node serves the old
   configuration with nothing left to deliver.
   */
  lemma {:induction false} DisorderlyReconnectLosesUpdates(id: SiteId, stale: seq<Byte>, current: seq<Byte>,
                                                          decode: Decoder, labels: set<string>)
    requires decode(stale).Some? && decode(current).Some? && decode(stale) != decode(current)
    requires LabelsMatch(decode(stale).value, labels) && LabelsMatch(decode(current).value, labels)
    ensures var log := [[Put(id, stale)], [Put(id, current)]];
      var w := Run(log, [Get, Note(0), Store(0), Deliver(1), Swap, Reconnect], decode, labels).w;
      && w.cursor == w.lastRevision == |w.log|
      && w.live != LoadAt(log, 2, decode, labels)
  {
    hide LoadAt, Between, Run, LabelsMatch, Touches;
    TwoUpdates(id, stale, current, decode, labels);
    ReconnectAfterStaleBatch([[Put(id, stale)], [Put(id, current)]], 1, decode, labels);
  }

  /** So can a reload: its store puts back the map of before the batch that overtook it. */
  lemma {:induction false} OverlappingReloadLosesUpdates(id: SiteId, stale: seq<Byte>, current: seq<Byte>,
                                                        decode: Decoder, labels: set<string>)
    requires decode(stale).Some? && decode(current).Some? && decode(stale) != decode(current)
    requires LabelsMatch(decode(stale).value, labels) && LabelsMatch(decode(current).value, labels)
    ensures var w := Run([[Put(id, stale)]], [Get, Write([Put(id, current)]), Note(0), Deliver(2), Swap, Store(0)],
                         decode, labels).w;
      && w.cursor == w.lastRevision == |w.log| == 2
      && w.live != LoadAt(w.log, 2, decode, labels)
  {
    hide LoadAt, Between, Run, LabelsMatch, Touches;
    TwoUpdates(id, stale, current, decode, labels);
    assert [[Put(id, stale)]] + [[Put(id, current)]] == [[Put(id, stale)], [Put(id, current)]];
    StoreAfterNewerBatch([[Put(id, stale)]], [Put(id, current)], decode, labels);
  }

  /**
   End to end, after every run at whose end nothing is left to deliver and every site ends right, as
   an orderly one's do: hosts are matched against etcd's own contents, whatever the index order.
   */
  lemma {:induction false} HostsFollowEtcd(log: Log, actions: seq<Action>, decode: Decoder, labels: set<string>,
                                          exact: Index, wildcard: Index, host: string, lower: string -> string,
                                          a: string, rest: string)
    requires var h := Run(log, actions, decode, labels);
      && (forall id ::
            h.live(id).revision <= |h.w.log| && EndsRight(h.w.log, h.live(id), h.w.cursor, id, decode, labels))
      && h.w.cursor == |h.w.log|
      && Indexes(exact, h.w.live, lower, false) && Indexes(wildcard, h.w.live, lower, true)
    ensures var w := Run(log, actions, decode, labels).w;
      var sites := LoadAt(w.log, |w.log|, decode, labels);
      Found(sites, lower, NormalizeHost(host, lower), a, rest, MatchSite(w.live, exact, wildcard, host, lower))
  {
    hide *;
    LiveMapFollowsEtcdIff(log, actions, decode, labels);
    var w := Run(log, actions, decode, labels).w;
    NothingToDeliver(w.log, w.live, decode, labels);
    MatchIsNaiveSearch(w.live, exact, wildcard, host, lower, a, rest);
  }
}
