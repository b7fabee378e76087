/**
 `EtcdConfigManager`: full loads of the site map, the incremental watch that maintains it, and the
 revision from which a broken watch is resumed.

 `log[r - 1]` is what the writes of etcd revision r did to the site keys; revisions that touched
 other keys are empty.  `decode` stands for the JSON parser.
 */
module Watcher {
  import opened Wrappers
  import opened LiveConfig

  /** Both the load and the watch skip the bare prefix key, so site ids are never empty. */
  type SiteId = s: string | s != "" witness "s"

  datatype Event = Put(site: SiteId, payload: seq<Byte>) | Delete(site: SiteId)

  type Log = seq<seq<Event>>
  type Raw = map<SiteId, seq<Byte>>
  type Decoder = seq<Byte> -> Option<Site>

  // ------------------------------------------------------------------------------------------
  // etcd's contents and the full load.

  function WriteRaw(m: Raw, e: Event): Raw {
    match e
    case Put(id, payload) => m[id := payload]
    case Delete(id) => m - {id}
  }

  function WriteAll(m: Raw, es: seq<Event>): Raw {
    if es == [] then m else WriteRaw(WriteAll(m, es[..|es| - 1]), es[|es| - 1])
  }

  /** The site keys as of a revision. */
  function Contents(log: Log, revision: nat): Raw
    requires revision <= |log|
  {
    if revision == 0 then map[] else WriteAll(Contents(log, revision - 1), log[revision - 1])
  }

  predicate Serves(decode: Decoder, labels: set<string>, payload: seq<Byte>) {
    decode(payload).Some? && LabelsMatch(decode(payload).value, labels)
  }

  /** `load_all`: decode every site key, skip what does not parse, keep what matches the node. */
  function LoadAll(m: Raw, decode: Decoder, labels: set<string>): Sites {
    map id | id in m && Serves(decode, labels, m[id]) :: decode(m[id]).value
  }

  /** The site keys that parse, but for those still to be read. */
  function Decoded(m: Raw, rest: set<SiteId>, decode: Decoder): Sites {
    map id | id in m && id !in rest && decode(m[id]).Some? :: decode(m[id]).value
  }

  /** The k-th event is the last one about the site. */
  ghost predicate LastAbout(es: seq<Event>, k: int, id: SiteId) {
    0 <= k < |es| && es[k].site == id && forall j | k < j < |es| :: es[j].site != id
  }

  lemma {:induction false} WrittenLast(m: Raw, es: seq<Event>, id: SiteId, k: int)
    ensures LastAbout(es, k, id) ==>
              if es[k].Put? then id in WriteAll(m, es) && WriteAll(m, es)[id] == es[k].payload
              else id !in WriteAll(m, es)
    ensures (forall j | 0 <= j < |es| :: es[j].site != id) ==>
              (id in WriteAll(m, es) <==> id in m) && (id in m ==> WriteAll(m, es)[id] == m[id])
  {
    if es != [] {
      var front := es[..|es| - 1];
      WrittenLast(m, front, id, k);
      if LastAbout(es, k, id) && k < |front| {
        assert front[k] == es[k];
        assert LastAbout(front, k, id);
      }
    }
  }

  lemma {:induction false} WriteConcat(m: Raw, a: seq<Event>, b: seq<Event>)
    ensures WriteAll(m, a + b) == WriteAll(WriteAll(m, a), b)
  {
    if b == [] {
      assert a + b == a;
    } else {
      WriteConcat(m, a, b[..|b| - 1]);
      assert (a + b)[..|a + b| - 1] == a + b[..|b| - 1];
    }
  }

  lemma {:induction false} ContentsAreWrites(log: Log, revision: nat)
    requires revision <= |log|
    ensures Contents(log, revision) == WriteAll(map[], Between(log, 0, revision))
  {
    if revision > 0 {
      ContentsAreWrites(log, revision - 1);
      WriteConcat(map[], Between(log, 0, revision - 1), log[revision - 1]);
    }
  }

  /**
   What a full load serves: a site whose last write up to the revision is a configuration that parses and
   names no target label, or at least one that the node has; a site never written is not served.
   */
  lemma {:induction false} ServedIff(log: Log, revision: nat, decode: Decoder, labels: set<string>, id: SiteId, k: int)
    requires revision <= |log|
    ensures
      var live, es := LoadAll(Contents(log, revision), decode, labels), Between(log, 0, revision);
      && (LastAbout(es, k, id) ==>
            if es[k].Put? && decode(es[k].payload).Some? then
              var site := decode(es[k].payload).value;
              && (id in live <==>
                    || site.targetLabels == []
                    || exists i | 0 <= i < |site.targetLabels| :: site.targetLabels[i] in labels)
              && (id in live ==> live[id] == site)
            else id !in live)
      && ((forall j | 0 <= j < |es| :: es[j].site != id) ==> id !in live)
  {
    hide WriteAll, Between, Contents;
    var es := Between(log, 0, revision);
    ContentsAreWrites(log, revision);
    WrittenLast(map[], es, id, k);
    if LastAbout(es, k, id) && es[k].Put? && decode(es[k].payload).Some? {
      LabelledFor(decode(es[k].payload).value, labels);
    }
  }

  lemma {:induction false} LabelledFor(site: Site, labels: set<string>)
    ensures LabelsMatch(site, labels)
       <==> site.targetLabels == [] || exists i | 0 <= i < |site.targetLabels| :: site.targetLabels[i] in labels
  {
    if l :| l in site.targetLabels && l in labels {
      var i :| 0 <= i < |site.targetLabels| && site.targetLabels[i] == l;
    }
  }

  // ------------------------------------------------------------------------------------------
  // The watch.

  function ApplyEvent(sites: Sites, e: Event, decode: Decoder, labels: set<string>): Sites {
    match e
    case Delete(id) => sites - {id}
    case Put(id, payload) =>
      match decode(payload)
      case None => sites
      case Some(site) => if LabelsMatch(site, labels) then sites[id := site] else sites - {id}
  }

  function ApplyAll(sites: Sites, es: seq<Event>, decode: Decoder, labels: set<string>): Sites {
    if es == [] then sites
    else ApplyEvent(ApplyAll(sites, es[..|es| - 1], decode, labels), es[|es| - 1], decode, labels)
  }

  /** The events of the revisions after `from` up to `to`, in order. */
  function Between(log: Log, from: nat, to: nat): seq<Event>
    requires from <= to <= |log|
  {
    if from == to then [] else Between(log, from, to - 1) + log[to - 1]
  }

  predicate Decodes(e: Event, decode: Decoder) {
    e.Put? ==> decode(e.payload).Some?
  }

  predicate AllDecode(es: seq<Event>, decode: Decoder) {
    forall i | 0 <= i < |es| :: Decodes(es[i], decode)
  }

  predicate LogDecodes(log: Log, decode: Decoder) {
    forall r | 0 <= r < |log| :: AllDecode(log[r], decode)
  }

  /**
   One event keeps the incremental map equal to the full load if and only if its payload decodes or
   the site was not being served: an unparsable update leaves the old configuration in place, where
   a full load would drop the site.
   */
  lemma {:induction false} EventRefinesIff(m: Raw, e: Event, decode: Decoder, labels: set<string>)
    ensures ApplyEvent(LoadAll(m, decode, labels), e, decode, labels) == LoadAll(WriteRaw(m, e), decode, labels)
       <==> Decodes(e, decode) || e.site !in LoadAll(m, decode, labels)
  {
  }

  lemma {:induction false} EventsRefine(m: Raw, es: seq<Event>, decode: Decoder, labels: set<string>)
    requires AllDecode(es, decode)
    ensures ApplyAll(LoadAll(m, decode, labels), es, decode, labels) == LoadAll(WriteAll(m, es), decode, labels)
  {
    hide LoadAll, ApplyEvent, WriteRaw;
    if es != [] {
      var front := es[..|es| - 1];
      EventsRefine(m, front, decode, labels);
      EventRefinesIff(WriteAll(m, front), es[|es| - 1], decode, labels);
    }
  }

  lemma {:induction false} ApplyConcat(sites: Sites, a: seq<Event>, b: seq<Event>, decode: Decoder, labels: set<string>)
    ensures ApplyAll(sites, a + b, decode, labels) == ApplyAll(ApplyAll(sites, a, decode, labels), b, decode, labels)
  {
    hide ApplyEvent;
    if b == [] {
      assert a + b == a;
    } else {
      ApplyConcat(sites, a, b[..|b| - 1], decode, labels);
      assert (a + b)[..|a + b| - 1] == a + b[..|b| - 1];
    }
  }

  /** Watching from a full load: at every revision the map is what a full load would build there. */
  lemma {:induction false} WatchRefinesLoad(log: Log, from: nat, to: nat, decode: Decoder, labels: set<string>)
    requires from <= to <= |log| && LogDecodes(log, decode)
    ensures ApplyAll(LoadAll(Contents(log, from), decode, labels), Between(log, from, to), decode, labels)
         == LoadAll(Contents(log, to), decode, labels)
  {
    hide LoadAll, ApplyEvent;
    if from < to {
      var start := LoadAll(Contents(log, from), decode, labels);
      WatchRefinesLoad(log, from, to - 1, decode, labels);
      ApplyConcat(start, Between(log, from, to - 1), log[to - 1], decode, labels);
      EventsRefine(Contents(log, to - 1), log[to - 1], decode, labels);
    }
  }

  // ------------------------------------------------------------------------------------------
  // Replaying events.

  ghost predicate Touches(es: seq<Event>, id: string) {
    exists i | 0 <= i < |es| :: es[i].site == id
  }

  ghost predicate SameAt(a: Sites, b: Sites, id: string) {
    (id in a <==> id in b) && (id in a ==> a[id] == b[id])
  }

  lemma {:induction false} EventAt(a: Sites, b: Sites, e: Event, id: string, decode: Decoder, labels: set<string>)
    requires Decodes(e, decode)
    requires id != e.site ==> SameAt(a, b, id)
    ensures SameAt(ApplyEvent(a, e, decode, labels), ApplyEvent(b, e, decode, labels), id)
  {
  }

  /** Maps that agree on the sites no event touches agree everywhere afterwards. */
  lemma {:induction false} ReplayForgetsTouched(a: Sites, b: Sites, es: seq<Event>, decode: Decoder,
                                                labels: set<string>)
    requires AllDecode(es, decode)
    requires forall id | !Touches(es, id) :: SameAt(a, b, id)
    ensures ApplyAll(a, es, decode, labels) == ApplyAll(b, es, decode, labels)
  {
    forall id ensures SameAt(ApplyAll(a, es, decode, labels), ApplyAll(b, es, decode, labels), id) {
      ReplayAt(a, b, es, id, decode, labels);
    }
    var x, y := ApplyAll(a, es, decode, labels), ApplyAll(b, es, decode, labels);
    assert x.Keys == y.Keys by {
      forall id ensures id in x <==> id in y { assert SameAt(x, y, id); }
    }
    forall id | id in x ensures x[id] == y[id] { assert SameAt(x, y, id); }
  }

  lemma {:induction false} ReplayAt(a: Sites, b: Sites, es: seq<Event>, id: string, decode: Decoder,
                                    labels: set<string>)
    requires AllDecode(es, decode)
    requires !Touches(es, id) ==> SameAt(a, b, id)
    ensures SameAt(ApplyAll(a, es, decode, labels), ApplyAll(b, es, decode, labels), id)
  {
    hide ApplyEvent;
    if es != [] {
      var front, e := es[..|es| - 1], es[|es| - 1];
      if id != e.site && Touches(es, id) {
        var i :| 0 <= i < |es| && es[i].site == id;
        assert front[i].site == id;
      }
      if id != e.site {
        ReplayAt(a, b, front, id, decode, labels);
      }
      EventAt(ApplyAll(a, front, decode, labels), ApplyAll(b, front, decode, labels), e, id, decode, labels);
    }
  }

  lemma {:induction false} Untouched(sites: Sites, es: seq<Event>, id: string, decode: Decoder, labels: set<string>)
    requires !Touches(es, id)
    ensures SameAt(ApplyAll(sites, es, decode, labels), sites, id)
  {
    if es != [] {
      var front := es[..|es| - 1];
      TouchesMore(front, es[|es| - 1..], id);
      assert es == front + es[|es| - 1..];
      Untouched(sites, front, id, decode, labels);
    }
  }

  lemma {:induction false} TouchesMore(a: seq<Event>, b: seq<Event>, id: string)
    ensures Touches(a + b, id) <==> Touches(a, id) || Touches(b, id)
  {
    if Touches(a, id) {
      var i :| 0 <= i < |a| && a[i].site == id;
      assert (a + b)[i].site == id;
    }
    if Touches(b, id) {
      var i :| 0 <= i < |b| && b[i].site == id;
      assert (a + b)[|a| + i].site == id;
    }
  }

  lemma {:induction false} BetweenSplit(log: Log, from: nat, mid: nat, to: nat)
    requires from <= mid <= to <= |log|
    ensures Between(log, from, to) == Between(log, from, mid) + Between(log, mid, to)
  {
    if mid < to { BetweenSplit(log, from, mid, to - 1); }
  }

  lemma {:induction false} BetweenDecodes(log: Log, from: nat, to: nat, decode: Decoder)
    requires from <= to <= |log| && LogDecodes(log, decode)
    ensures AllDecode(Between(log, from, to), decode)
  {
    if from < to {
      BetweenDecodes(log, from, to - 1, decode);
      assert AllDecode(log[to - 1], decode);
    }
  }

  /**
   Replay is harmless: events already reflected in the map may be delivered again, as long as the
   delivery then goes on at least to the revision the map reflects.
   */
  lemma {:induction false} ReplayIsHarmless(log: Log, from: nat, reflected: nat, to: nat, decode: Decoder,
                                           labels: set<string>)
    requires from <= reflected <= to <= |log| && LogDecodes(log, decode)
    ensures ApplyAll(LoadAll(Contents(log, reflected), decode, labels), Between(log, from, to), decode, labels)
         == LoadAll(Contents(log, to), decode, labels)
  {
    hide LoadAll, ApplyEvent, ApplyAll, Contents;
    var before := LoadAll(Contents(log, from), decode, labels);
    var after := LoadAll(Contents(log, reflected), decode, labels);
    var seen, all := Between(log, from, reflected), Between(log, from, to);
    WatchRefinesLoad(log, from, reflected, decode, labels);
    WatchRefinesLoad(log, from, to, decode, labels);
    BetweenSplit(log, from, reflected, to);
    BetweenDecodes(log, from, to, decode);
    forall id | !Touches(all, id) ensures SameAt(after, before, id) {
      TouchesMore(seen, Between(log, reflected, to), id);
      Untouched(before, seen, id, decode, labels);
    }
    ReplayForgetsTouched(after, before, all, decode, labels);
  }

  // ------------------------------------------------------------------------------------------
  // The object that handles a watch response.

  function Max(a: nat, b: nat): nat {
    if a < b then b else a
  }

  class EtcdConfigManager {
    const labels: set<string>
    var live: Sites
    var lastRevision: nat

    constructor (labels: set<string>)
      ensures this.labels == labels && live == map[] && lastRevision == 0
    {
      this.labels, live, lastRevision := labels, map[], 0;
    }

    /** A full load of the site keys found at a revision, in whatever order etcd lists them. */
    method LoadAllInPlace(found: Raw, revision: nat, decode: Decoder)
      modifies this
      ensures live == LoadAll(found, decode, labels)
      ensures lastRevision == Max(old(lastRevision), revision)
    {
      lastRevision := Max(lastRevision, revision);
      var sites: Sites, rest := map[], found.Keys;
      while rest != {}
        invariant rest <= found.Keys
        invariant sites == Decoded(found, rest, decode)
        invariant lastRevision == Max(old(lastRevision), revision)
        decreases |rest|
      {
        var id :| id in rest;
        var parsed := decode(found[id]);
        if parsed.Some? {
          sites := sites[id := parsed.value];
        }
        rest := rest - {id};
      }
      live := FilterByLabels(sites, labels);
    }

    /** One watch response: a private copy of the map is updated and swapped in if it changed. */
    method HandleBatch(es: seq<Event>, revisions: seq<nat>, decode: Decoder)
      requires |revisions| == |es|
      modifies this
      ensures live == ApplyAll(old(live), es, decode, labels)
      ensures lastRevision >= old(lastRevision) && forall i | 0 <= i < |es| :: lastRevision >= revisions[i]
      ensures lastRevision == old(lastRevision) || lastRevision in revisions
    {
      var sites, changed, maxRevision := live, false, 0;
      for i := 0 to |es|
        invariant live == old(live) && lastRevision == old(lastRevision)
        invariant sites == ApplyAll(old(live), es[..i], decode, labels)
        invariant !changed ==> sites == old(live)
        invariant forall j | 0 <= j < i :: maxRevision >= revisions[j]
        invariant maxRevision == 0 || maxRevision in revisions
      {
        assert es[..i + 1][..i] == es[..i];
        if revisions[i] > maxRevision { maxRevision := revisions[i]; }
        match es[i] {
          case Put(id, payload) =>
            var parsed := decode(payload);
            if parsed.Some? {
              if LabelsMatch(parsed.value, labels) {
                sites, changed := sites[id := parsed.value], true;
              } else if id in sites {
                sites, changed := sites - {id}, true;
              } else {
                assert sites - {id} == sites;
              }
            }
          case Delete(id) =>
            sites, changed := sites - {id}, true;
        }
      }
      assert es[..|es|] == es;
      if changed { live := sites; }
      if maxRevision > 0 && maxRevision > lastRevision { lastRevision := maxRevision; }
    }
  }
}
