/**
 Request coalescing: for each cache key one request leads, the others wait for its entry to be
 released.  Every access to the map and every call on a `Notify` is one step, so a release is two;
 steps of different requests interleave.
 */
module Coalescing {
  import opened Wrappers

  type Key = string

  /** Entries are numbered as they are inserted; a number stands for one `Notify` object. */
  type Entry = nat

  datatype Stage =
    | Fresh
    | Found(entry: Entry)
    | Listening(entry: Entry, woken: bool)
    | Proceeding
    | Notifying(entry: Entry, finishing: bool)
    | Finished

  datatype Request = Request(stage: Stage, cacheKey: Option<Key>, leader: bool, tried: nat)

  datatype State = State(entries: map<Key, Entry>, nextEntry: Entry, requests: seq<Request>)

  datatype Action =
    | Arrive
    | Filter(request: nat, key: Key)
    | Listen(request: nat)
    | Resume(request: nat)
    | Timeout(request: nat)
    | Clear(request: nat)
    | EndOfStream(request: nat)
    | FailToConnect(request: nat, maxRetries: nat)
    | Logging(request: nat)
    | Notify(request: nat)

  /** Wake whoever listens on an entry. */
  function Woken(q: Request, entry: Entry): Request {
    if q.stage.Listening? && q.stage.entry == entry then q.(stage := Listening(entry, true)) else q
  }

  function WakeAll(requests: seq<Request>, entry: Entry): (r: seq<Request>)
    ensures |r| == |requests|
  {
    seq(|requests|, i requires 0 <= i < |requests| => Woken(requests[i], entry))
  }

  predicate At(s: State, r: nat, stage: Stage) {
    r < |s.requests| && s.requests[r].stage == stage
  }

  /** The look-up in `request_filter`: lead if the key is free, otherwise remember its entry. */
  function DoFilter(s: State, r: nat, key: Key): State
    requires r < |s.requests|
  {
    if key in s.entries
    then s.(requests := s.requests[r := Request(Found(s.entries[key]), Some(key), false, 0)])
    else State(s.entries[key := s.nextEntry], s.nextEntry + 1,
               s.requests[r := Request(Proceeding, Some(key), true, 0)])
  }

  /** Where a release leaves its request: the last callback ends it. */
  function Done(finishing: bool): Stage { if finishing then Finished else Proceeding }

  /**
   The release block shared by three callbacks, up to the removal: it finds its entry through the
   cache key, and still has to notify if it took one out.
   */
  function Remove(s: State, r: nat, finishing: bool): State
    requires r < |s.requests|
  {
    var q := s.requests[r];
    if q.leader && q.cacheKey.Some? && q.cacheKey.value in s.entries then
      s.(entries := s.entries - {q.cacheKey.value},
         requests := s.requests[r := q.(stage := Notifying(s.entries[q.cacheKey.value], finishing), leader := false)])
    else s.(requests := s.requests[r := q.(stage := Done(finishing), leader := false)])
  }

  /** The rest of the release block. */
  function DoNotify(s: State, r: nat): State
    requires r < |s.requests| && s.requests[r].stage.Notifying?
  {
    var q := s.requests[r];
    s.(requests := WakeAll(s.requests, q.stage.entry)[r := q.(stage := Done(q.stage.finishing))])
  }

  function Become(s: State, r: nat, stage: Stage): State
    requires r < |s.requests|
  {
    s.(requests := s.requests[r := s.requests[r].(stage := stage)])
  }

  /** One step; an action that is not enabled changes nothing. */
  function Next(s: State, a: Action): State {
    match a
    case Arrive => s.(requests := s.requests + [Request(Fresh, None, false, 0)])
    case Filter(r, key) => if At(s, r, Fresh) then DoFilter(s, r, key) else s
    case Listen(r) =>
      if r < |s.requests| && s.requests[r].stage.Found?
      then Become(s, r, Listening(s.requests[r].stage.entry, false)) else s
    case Resume(r) =>
      if r < |s.requests| && s.requests[r].stage.Listening? && s.requests[r].stage.woken
      then Become(s, r, Proceeding) else s
    case Timeout(r) =>
      if r < |s.requests| && s.requests[r].stage.Listening? then Become(s, r, Proceeding) else s
    case Clear(r) =>
      if At(s, r, Proceeding) then s.(requests := s.requests[r := s.requests[r].(cacheKey := None)]) else s
    case EndOfStream(r) => if At(s, r, Proceeding) then Remove(s, r, false) else s
    case FailToConnect(r, maxRetries) =>
      if At(s, r, Proceeding) then
        var t := s.(requests := s.requests[r := s.requests[r].(tried := s.requests[r].tried + 1)]);
        if t.requests[r].tried < maxRetries then t else Remove(t, r, false)
      else s
    case Logging(r) => if At(s, r, Proceeding) then Remove(s, r, true) else s
    case Notify(r) => if r < |s.requests| && s.requests[r].stage.Notifying? then DoNotify(s, r) else s
  }

  function Initial(): State { State(map[], 0, []) }

  function Run(s: State, actions: seq<Action>): State
    decreases |actions|
  {
    if actions == [] then s else Next(Run(s, actions[..|actions| - 1]), actions[|actions| - 1])
  }

  class CdnProxy {
    var entries: map<Key, Entry>
    var nextEntry: Entry
    var requests: seq<Request>

    function View(): State
      reads this
    {
      State(entries, nextEntry, requests)
    }

    constructor ()
      ensures View() == Initial()
    {
      entries, nextEntry, requests := map[], 0, [];
    }

    method RequestFilter(r: nat, key: Key)
      requires At(View(), r, Fresh)
      modifies this
      ensures View() == Next(old(View()), Filter(r, key))
    {
      if key in entries {
        requests := requests[r := Request(Found(entries[key]), Some(key), false, 0)];
      } else {
        entries := entries[key := nextEntry];
        nextEntry := nextEntry + 1;
        requests := requests[r := Request(Proceeding, Some(key), true, 0)];
      }
    }

    /** `notify_waiters`. */
    method NotifyWaiters(entry: Entry)
      modifies this`requests
      ensures requests == WakeAll(old(requests), entry)
    {
      for i := 0 to |requests|
        invariant |requests| == |old(requests)|
        invariant forall j | 0 <= j < i :: requests[j] == Woken(old(requests)[j], entry)
        invariant forall j | i <= j < |requests| :: requests[j] == old(requests)[j]
      {
        requests := requests[i := Woken(requests[i], entry)];
      }
    }

    method RemoveInPlace(r: nat, finishing: bool)
      requires r < |requests|
      modifies this
      ensures View() == Remove(old(View()), r, finishing)
    {
      var q := requests[r];
      if q.leader && q.cacheKey.Some? && q.cacheKey.value in entries {
        var entry := entries[q.cacheKey.value];
        entries := entries - {q.cacheKey.value};
        requests := requests[r := q.(stage := Notifying(entry, finishing), leader := false)];
      } else {
        requests := requests[r := q.(stage := Done(finishing), leader := false)];
      }
    }

    /** The notification, if the removal took an entry out. */
    method NotifyInPlace(r: nat)
      requires r < |requests|
      modifies this`requests
      ensures View() == Next(old(View()), Notify(r))
    {
      var q := requests[r];
      if q.stage.Notifying? {
        NotifyWaiters(q.stage.entry);
        requests := requests[r := q.(stage := Done(q.stage.finishing))];
      }
    }

    /** The callbacks with nothing interleaved. */
    method EndOfStreamCallback(r: nat)
      requires At(View(), r, Proceeding)
      modifies this
      ensures View() == Next(Next(old(View()), EndOfStream(r)), Notify(r))
    {
      RemoveInPlace(r, false);
      NotifyInPlace(r);
    }

    method FailToConnectCallback(r: nat, maxRetries: nat)
      requires At(View(), r, Proceeding)
      modifies this
      ensures View() == Next(Next(old(View()), FailToConnect(r, maxRetries)), Notify(r))
    {
      requests := requests[r := requests[r].(tried := requests[r].tried + 1)];
      if requests[r].tried < maxRetries {
        return;
      }
      RemoveInPlace(r, false);
      NotifyInPlace(r);
    }

    method LoggingCallback(r: nat)
      requires At(View(), r, Proceeding)
      modifies this
      ensures View() == Next(Next(old(View()), Logging(r)), Notify(r))
    {
      RemoveInPlace(r, true);
      NotifyInPlace(r);
    }
  }

  // ------------------------------------------------------------------------------------------
  // Safety.

  ghost predicate Leads(s: State, r: nat, key: Key) {
    r < |s.requests| && s.requests[r].leader && s.requests[r].cacheKey == Some(key)
  }

  ghost predicate Led(s: State, key: Key) { exists r: nat :: Leads(s, r, key) }

  ghost predicate Live(s: State, entry: Entry) { exists key :: key in s.entries && s.entries[key] == entry }

  /** Whatever entry a request waits for has been handed out. */
  ghost predicate Numbered(s: State) {
    forall r: nat | r < |s.requests| && (s.requests[r].stage.Found? || s.requests[r].stage.Listening?) ::
      s.requests[r].stage.entry < s.nextEntry
  }

  ghost predicate Inv(s: State) {
    && Numbered(s)
    && (forall r: nat, key | Leads(s, r, key) :: key in s.entries && s.requests[r].stage == Proceeding)
    && (forall q: nat, r: nat, key | Leads(s, q, key) && Leads(s, r, key) :: q == r)
    && (forall key | key in s.entries :: s.entries[key] < s.nextEntry)
    && (forall k, l | k in s.entries && l in s.entries && s.entries[k] == s.entries[l] :: k == l)
    && (forall r: nat | r < |s.requests| :: s.requests[r].leader ==> s.requests[r].stage == Proceeding)
  }

  /** Keys that are in the map though no request leads them. */
  ghost function Orphans(s: State): set<Key> {
    set key | key in s.entries && !Led(s, key)
  }

  /** The key whose leader forgets it in this step. */
  ghost function Forgotten(s: State, a: Action): set<Key> {
    if a.Clear? && At(s, a.request, Proceeding) && s.requests[a.request].leader && s.requests[a.request].cacheKey.Some?
    then {s.requests[a.request].cacheKey.value} else {}
  }

  ghost function AllForgotten(s: State, actions: seq<Action>): set<Key>
    decreases |actions|
  {
    if actions == [] then {}
    else
      var front := actions[..|actions| - 1];
      AllForgotten(s, front) + Forgotten(Run(s, front), actions[|actions| - 1])
  }

  /** A step that leaves the map, the leaders and their keys alone. */
  ghost predicate SameLeaders(s: State, t: State) {
    && t.entries == s.entries && t.nextEntry == s.nextEntry && Numbered(t)
    && (forall r: nat, key :: Leads(t, r, key) <==> Leads(s, r, key))
    && (forall r: nat | r < |t.requests| :: t.requests[r].leader ==> t.requests[r].stage == Proceeding)
  }

  lemma {:induction false} SameLeadersKeep(s: State, t: State)
    requires Inv(s) && SameLeaders(s, t)
    ensures Inv(t) && Orphans(t) == Orphans(s)
  {
  }

  lemma {:induction false} FilterKeeps(s: State, r: nat, key: Key)
    requires Inv(s) && At(s, r, Fresh)
    ensures Inv(DoFilter(s, r, key)) && Orphans(DoFilter(s, r, key)) == Orphans(s)
  {
    var t := DoFilter(s, r, key);
    assert !s.requests[r].leader;
    if key in s.entries {
      SameLeadersKeep(s, t);
    } else {
      assert forall q: nat, k :: Leads(t, q, k) <==> Leads(s, q, k) || (q == r && k == key);
      assert Leads(t, r, key);
      forall k | k in t.entries
        ensures Led(t, k) <==> Led(s, k) || k == key
      {
        if q: nat :| Leads(s, q, k) { assert Leads(t, q, k); }
      }
    }
  }

  lemma {:induction false} ClearKeeps(s: State, r: nat)
    requires Inv(s) && At(s, r, Proceeding)
    ensures Inv(Next(s, Clear(r))) && Orphans(Next(s, Clear(r))) == Orphans(s) + Forgotten(s, Clear(r))
  {
    var t := Next(s, Clear(r));
    assert forall q: nat, k :: Leads(t, q, k) <==> Leads(s, q, k) && q != r;
    forall k
      ensures Led(t, k) <==> Led(s, k) && !Leads(s, r, k)
    {
      if q: nat :| Leads(s, q, k) && q != r { assert Leads(t, q, k); }
    }
  }

  lemma {:induction false} RemoveKeeps(s: State, r: nat, finishing: bool)
    requires Inv(s) && At(s, r, Proceeding)
    ensures Inv(Remove(s, r, finishing)) && Orphans(Remove(s, r, finishing)) == Orphans(s)
  {
    var t := Remove(s, r, finishing);
    assert forall q: nat, k :: Leads(t, q, k) <==> Leads(s, q, k) && q != r;
    forall k
      ensures Led(t, k) <==> Led(s, k) && !Leads(s, r, k)
    {
      if q: nat :| Leads(s, q, k) && q != r { assert Leads(t, q, k); }
    }
    forall k | k in s.entries
      ensures k in t.entries <==> !Leads(s, r, k)
    {
    }
  }

  lemma {:induction false} NotifyKeeps(s: State, r: nat)
    requires Inv(s) && r < |s.requests| && s.requests[r].stage.Notifying?
    ensures Inv(DoNotify(s, r)) && Orphans(DoNotify(s, r)) == Orphans(s)
  {
    var t := DoNotify(s, r);
    forall q: nat | q < |s.requests|
      ensures t.requests[q].cacheKey == s.requests[q].cacheKey && t.requests[q].leader == s.requests[q].leader
      ensures s.requests[q].stage == Proceeding ==> t.requests[q].stage == Proceeding
    {
    }
    SameLeadersKeep(s, t);
  }

  lemma {:induction false} StepKeeps(s: State, a: Action)
    requires Inv(s)
    ensures Inv(Next(s, a)) && Orphans(Next(s, a)) == Orphans(s) + Forgotten(s, a)
  {
    hide Inv, Orphans, DoFilter, Remove, DoNotify, Leads;
    var t := Next(s, a);
    match a
    case Filter(r, key) => if At(s, r, Fresh) { FilterKeeps(s, r, key); }
    case Clear(r) => if At(s, r, Proceeding) { ClearKeeps(s, r); }
    case EndOfStream(r) => if At(s, r, Proceeding) { RemoveKeeps(s, r, false); }
    case FailToConnect(r, maxRetries) =>
      if At(s, r, Proceeding) {
        var u := s.(requests := s.requests[r := s.requests[r].(tried := s.requests[r].tried + 1)]);
        TriedKeeps(s, r);
        RemoveKeeps(u, r, false);
      }
    case Logging(r) => if At(s, r, Proceeding) { RemoveKeeps(s, r, true); }
    case Notify(r) => if r < |s.requests| && s.requests[r].stage.Notifying? { NotifyKeeps(s, r); }
    case _ => WaitersKeep(s, a);
  }

  lemma {:induction false} TriedKeeps(s: State, r: nat)
    requires Inv(s) && At(s, r, Proceeding)
    ensures var u := s.(requests := s.requests[r := s.requests[r].(tried := s.requests[r].tried + 1)]);
            Inv(u) && Orphans(u) == Orphans(s)
  {
    SameLeadersKeep(s, s.(requests := s.requests[r := s.requests[r].(tried := s.requests[r].tried + 1)]));
  }

  lemma {:induction false} WaitersKeep(s: State, a: Action)
    requires Inv(s) && (a.Arrive? || a.Listen? || a.Resume? || a.Timeout?)
    ensures Inv(Next(s, a)) && Orphans(Next(s, a)) == Orphans(s)
  {
    SameLeadersKeep(s, Next(s, a));
  }

  /**
   In every run at most one request leads a key, a leader's key is in the map, and the keys without
   a leader are exactly those a leader forgot.
   */
  lemma {:induction false} EveryRun(actions: seq<Action>)
    ensures var s := Run(Initial(), actions); Inv(s) && Orphans(s) == AllForgotten(Initial(), actions)
    decreases |actions|
  {
    hide Next, Inv, Forgotten;
    if actions == [] {
      NobodyLeads();
    } else {
      EveryRun(actions[..|actions| - 1]);
      StepKeeps(Run(Initial(), actions[..|actions| - 1]), actions[|actions| - 1]);
    }
  }

  lemma {:induction false} NobodyLeads()
    ensures Inv(Initial()) && Orphans(Initial()) == {}
  {
  }

  lemma {:induction false} AtMostOneLeader(actions: seq<Action>, q: nat, r: nat, key: Key)
    requires Leads(Run(Initial(), actions), q, key) && Leads(Run(Initial(), actions), r, key)
    ensures q == r
  {
    EveryRun(actions);
  }

  /** The map holds exactly the current leaders' keys, at every point, iff no leader's key was cleared. */
  lemma {:induction false} MapIsLeadersIff(actions: seq<Action>)
    ensures (forall key :: key in Run(Initial(), actions).entries <==> Led(Run(Initial(), actions), key))
       <==> AllForgotten(Initial(), actions) == {}
  {
    var s := Run(Initial(), actions);
    EveryRun(actions);
    hide Run, AllForgotten;
    forall key | Led(s, key)
      ensures key in s.entries
    {
      var r: nat :| Leads(s, r, key);
    }
    if Orphans(s) == {} {
      forall key | key in s.entries
        ensures Led(s, key)
      {
        assert key !in Orphans(s);
      }
    }
  }

  /** Once every request is past its last callback, what is left in the map are the forgotten keys. */
  lemma {:induction false} FinishedFreeTheMap(actions: seq<Action>)
    requires var s := Run(Initial(), actions); forall r: nat | r < |s.requests| :: s.requests[r].stage == Finished
    ensures Run(Initial(), actions).entries.Keys == AllForgotten(Initial(), actions)
  {
    var s := Run(Initial(), actions);
    EveryRun(actions);
    hide Run, AllForgotten;
    forall key | key in s.entries
      ensures !Led(s, key)
    {
    }
    assert s.entries.Keys == Orphans(s);
  }

  /** A key without a leader never leaves the map, so no later request ever leads it. */
  lemma {:induction false} ForgottenForever(s: State, actions: seq<Action>, key: Key)
    requires Inv(s) && key in Orphans(s)
    ensures Inv(Run(s, actions)) && key in Orphans(Run(s, actions))
    decreases |actions|
  {
    hide Next, Inv, Orphans;
    if actions != [] {
      ForgottenForever(s, actions[..|actions| - 1], key);
      StepKeeps(Run(s, actions[..|actions| - 1]), actions[|actions| - 1]);
    }
  }

  // ------------------------------------------------------------------------------------------
  // Waiters.

  ghost predicate Notifies(s: State, r: nat, entry: Entry) {
    r < |s.requests| && s.requests[r].stage.Notifying? && s.requests[r].stage.entry == entry
  }

  /** The notification of the entry is still to come, if ever: it is in the map or was taken out of it. */
  ghost predicate Pending(s: State, entry: Entry) {
    Live(s, entry) || exists r: nat :: Notifies(s, r, entry)
  }

  /** An entry being notified is out of the map for good, and one request notifies it. */
  ghost predicate Handover(s: State) {
    && (forall r: nat, entry: Entry | Notifies(s, r, entry) :: entry < s.nextEntry && !Live(s, entry))
    && (forall q: nat, r: nat, entry: Entry | Notifies(s, q, entry) && Notifies(s, r, entry) :: q == r)
  }

  /** A step that leaves the map and the notifiers alone. */
  ghost predicate SameNotifiers(s: State, t: State) {
    && t.entries == s.entries && t.nextEntry == s.nextEntry
    && forall r: nat, e: Entry :: Notifies(t, r, e) <==> Notifies(s, r, e)
  }

  lemma {:induction false} SameNotifiersKeep(s: State, t: State, entry: Entry)
    requires Handover(s) && SameNotifiers(s, t)
    ensures Handover(t) && (Pending(t, entry) <==> Pending(s, entry))
  {
    if r: nat :| Notifies(s, r, entry) { assert Notifies(t, r, entry); }
  }

  lemma {:induction false} FilterPends(s: State, r: nat, key: Key, entry: Entry)
    requires Inv(s) && Handover(s) && At(s, r, Fresh)
    ensures Handover(DoFilter(s, r, key))
    ensures entry < s.nextEntry ==> (Pending(DoFilter(s, r, key), entry) <==> Pending(s, entry))
  {
    var t := DoFilter(s, r, key);
    assert forall q: nat, e: Entry :: Notifies(t, q, e) <==> Notifies(s, q, e);
    forall e: Entry | e < s.nextEntry ensures Live(t, e) <==> Live(s, e) {
      if k :| k in s.entries && s.entries[k] == e { assert k in t.entries && t.entries[k] == e; }
    }
    if q: nat :| Notifies(s, q, entry) { assert Notifies(t, q, entry); }
  }

  lemma {:induction false} LiveWithout(s: State, t: State, key: Key, entry: Entry)
    requires Inv(s) && key in s.entries && t.entries == s.entries - {key}
    ensures Live(t, entry) <==> Live(s, entry) && s.entries[key] != entry
    ensures s.entries[key] == entry ==> Live(s, entry)
  {
    if k :| k in s.entries && s.entries[k] == entry && k != key {
      assert k in t.entries && t.entries[k] == entry;
    }
  }

  lemma {:induction false} RemovePends(s: State, r: nat, finishing: bool, entry: Entry)
    requires Inv(s) && Handover(s) && At(s, r, Proceeding)
    ensures Handover(Remove(s, r, finishing)) && (Pending(Remove(s, r, finishing), entry) <==> Pending(s, entry))
  {
    var q, t := s.requests[r], Remove(s, r, finishing);
    if q.leader && q.cacheKey.Some? && q.cacheKey.value in s.entries {
      var key := q.cacheKey.value;
      var out := s.entries[key];
      assert forall i: nat, e: Entry :: Notifies(t, i, e) <==> Notifies(s, i, e) || (i == r && e == out);
      assert Notifies(t, r, out);
      LiveWithout(s, t, key, out);
      forall e: Entry ensures Live(t, e) <==> Live(s, e) && e != out { LiveWithout(s, t, key, e); }
      hide Live;
      if i: nat :| Notifies(s, i, entry) { assert Notifies(t, i, entry); }
    } else {
      SameNotifiersKeep(s, t, entry);
    }
  }

  lemma {:induction false} NotifyPends(s: State, r: nat, entry: Entry)
    requires Handover(s) && r < |s.requests| && s.requests[r].stage.Notifying?
    ensures Handover(DoNotify(s, r))
    ensures Pending(DoNotify(s, r), entry) <==> Pending(s, entry) && !Notifies(s, r, entry)
  {
    var t := DoNotify(s, r);
    forall q: nat, e: Entry ensures Notifies(t, q, e) <==> Notifies(s, q, e) && q != r {
    }
    hide DoNotify;
    assert forall e: Entry :: Live(t, e) <==> Live(s, e);
    if q: nat :| Notifies(s, q, entry) && q != r { assert Notifies(t, q, entry); }
  }

  /** The step that notifies the entry. */
  ghost predicate NotifyStep(s: State, a: Action, entry: Entry) {
    a.Notify? && Notifies(s, a.request, entry)
  }

  /** An entry stops being pending exactly when it is notified, and numbers are not used again. */
  lemma {:induction false} StepPends(s: State, a: Action, entry: Entry)
    requires Inv(s) && Handover(s)
    ensures Handover(Next(s, a)) && s.nextEntry <= Next(s, a).nextEntry
    ensures entry < s.nextEntry ==> (Pending(Next(s, a), entry) <==> Pending(s, entry) && !NotifyStep(s, a, entry))
  {
    hide Inv, Handover, Pending, Remove, DoNotify;
    match a
    case Filter(r, key) => if At(s, r, Fresh) { FilterPends(s, r, key, entry); }
    case EndOfStream(r) => if At(s, r, Proceeding) { RemovePends(s, r, false, entry); RemoveNumbers(s, r, false); }
    case FailToConnect(r, maxRetries) =>
      if At(s, r, Proceeding) {
        var u := s.(requests := s.requests[r := s.requests[r].(tried := s.requests[r].tried + 1)]);
        TriedKeeps(s, r);
        SameNotifiersKeep(s, u, entry);
        RemovePends(u, r, false, entry);
        RemoveNumbers(u, r, false);
      }
    case Logging(r) => if At(s, r, Proceeding) { RemovePends(s, r, true, entry); RemoveNumbers(s, r, true); }
    case Notify(r) =>
      if r < |s.requests| && s.requests[r].stage.Notifying? {
        NotifyPends(s, r, entry);
        assert DoNotify(s, r).nextEntry == s.nextEntry by { NotifyNumbers(s, r); }
      }
    case _ => SameNotifiersKeep(s, Next(s, a), entry);
  }

  lemma {:induction false} RemoveNumbers(s: State, r: nat, finishing: bool)
    requires r < |s.requests|
    ensures Remove(s, r, finishing).nextEntry == s.nextEntry
  {
  }

  lemma {:induction false} NotifyNumbers(s: State, r: nat)
    requires r < |s.requests| && s.requests[r].stage.Notifying?
    ensures DoNotify(s, r).nextEntry == s.nextEntry
  {
  }

  /** A step wakes a listener exactly when it notifies the listener's entry. */
  lemma {:induction false} WakeStep(s: State, a: Action, r: nat, entry: Entry, woken: bool)
    requires At(s, r, Listening(entry, woken)) && r < |Next(s, a).requests| && Next(s, a).requests[r].stage.Listening?
    ensures At(Next(s, a), r, Listening(entry, woken || NotifyStep(s, a, entry)))
  {
  }

  lemma {:induction false} StillListening(s: State, a: Action, r: nat)
    requires r < |s.requests| && !s.requests[r].stage.Fresh? && !s.requests[r].stage.Found?
    requires Next(s, a).requests[r].stage.Listening?
    ensures s.requests[r].stage.Listening?
  {
  }

  lemma {:induction false} NeverEarlier(s: State, actions: seq<Action>, r: nat)
    requires r < |s.requests| && !s.requests[r].stage.Fresh? && !s.requests[r].stage.Found?
    ensures var t := Run(s, actions);
            r < |t.requests| && !t.requests[r].stage.Fresh? && !t.requests[r].stage.Found?
    decreases |actions|
  {
    hide Next;
    if actions != [] {
      NeverEarlier(s, actions[..|actions| - 1], r);
      NotEarlier(Run(s, actions[..|actions| - 1]), actions[|actions| - 1], r);
    }
  }

  lemma {:induction false} NotEarlier(s: State, a: Action, r: nat)
    requires r < |s.requests| && !s.requests[r].stage.Fresh? && !s.requests[r].stage.Found?
    ensures var t := Next(s, a);
            r < |t.requests| && !t.requests[r].stage.Fresh? && !t.requests[r].stage.Found?
  {
  }

  /** Some step of the run notifies the entry. */
  ghost predicate Notified(s: State, actions: seq<Action>, entry: Entry)
    decreases |actions|
  {
    actions != [] &&
    var front := actions[..|actions| - 1];
    Notified(s, front, entry) || NotifyStep(Run(s, front), actions[|actions| - 1], entry)
  }

  lemma {:induction false} RunPends(s: State, actions: seq<Action>, entry: Entry)
    requires Inv(s) && Handover(s) && entry < s.nextEntry
    ensures var t := Run(s, actions); Inv(t) && Handover(t) && entry < t.nextEntry
    ensures Pending(Run(s, actions), entry) <==> Pending(s, entry) && !Notified(s, actions, entry)
    ensures Notified(s, actions, entry) ==> Pending(s, entry)
    decreases |actions|
  {
    hide Next, Inv, Handover, Pending, NotifyStep;
    if actions != [] {
      var front, last := actions[..|actions| - 1], actions[|actions| - 1];
      var u := Run(s, front);
      RunPends(s, front, entry);
      StepKeeps(u, last);
      StepPends(u, last, entry);
      if NotifyStep(u, last, entry) { NotifierPends(u, last, entry); }
    }
  }

  lemma {:induction false} NotifierPends(s: State, a: Action, entry: Entry)
    requires NotifyStep(s, a, entry)
    ensures Pending(s, entry)
  {
  }

  /**
   A waiter is woken exactly if its entry is notified after it began listening, whether the entry
   was still in the map then or not: later notifications are never missed, earlier ones never seen.
   */
  lemma {:induction false} WokenIffNotified(s: State, actions: seq<Action>, r: nat, entry: Entry)
    requires At(s, r, Listening(entry, false))
    ensures var t := Run(s, actions);
            r < |t.requests|
            && (t.requests[r].stage.Listening? ==> t.requests[r].stage == Listening(entry, Notified(s, actions, entry)))
    decreases |actions|
  {
    hide Next, NotifyStep;
    if actions != [] {
      var front, last := actions[..|actions| - 1], actions[|actions| - 1];
      var u, t := Run(s, front), Next(Run(s, front), last);
      WokenIffNotified(s, front, r, entry);
      NeverEarlier(s, front, r);
      NeverEarlier(s, actions, r);
      if t.requests[r].stage.Listening? {
        StillListening(u, last, r);
        WakeStep(u, last, r, entry, u.requests[r].stage.woken);
      }
    }
  }

  lemma {:induction false} EveryRunHandsOver(actions: seq<Action>)
    ensures Handover(Run(Initial(), actions))
    decreases |actions|
  {
    hide Next, Inv, Handover;
    if actions == [] {
      assert Handover(Initial()) by { NobodyNotifies(); }
    } else {
      var u := Run(Initial(), actions[..|actions| - 1]);
      EveryRun(actions[..|actions| - 1]);
      EveryRunHandsOver(actions[..|actions| - 1]);
      StepPends(u, actions[|actions| - 1], 0);
    }
  }

  lemma {:induction false} NobodyNotifies()
    ensures Handover(Initial())
  {
  }

  // ------------------------------------------------------------------------------------------
  // Who can still be woken.

  ghost predicate WokenAt(s: State, r: nat) {
    r < |s.requests| && s.requests[r].stage.Listening? && s.requests[r].stage.woken
  }

  /** Some request still answers for the entry: it leads the entry's key or is about to notify. */
  ghost predicate Owned(s: State, entry: Entry) {
    || (exists r: nat :: Notifies(s, r, entry))
    || (exists r: nat, key :: Leads(s, r, key) && key in s.entries && s.entries[key] == entry)
  }

  lemma {:induction false} OwnedIsPending(s: State, entry: Entry)
    ensures Owned(s, entry) ==> Pending(s, entry)
  {
  }

  lemma {:induction false} EntryStays(s: State, a: Action, key: Key)
    requires key in s.entries && key in Next(s, a).entries
    ensures Next(s, a).entries[key] == s.entries[key]
  {
  }

  lemma {:induction false} ForgottenEntryStays(s: State, actions: seq<Action>, key: Key)
    requires Inv(s) && key in Orphans(s)
    ensures var t := Run(s, actions); key in t.entries && t.entries[key] == s.entries[key]
    decreases |actions|
  {
    hide Next, Inv;
    if actions != [] {
      ForgottenForever(s, actions, key);
      ForgottenEntryStays(s, actions[..|actions| - 1], key);
      EntryStays(Run(s, actions[..|actions| - 1]), actions[|actions| - 1], key);
    }
  }

  lemma {:induction false} UnownedIsNeverNotified(s: State, actions: seq<Action>, entry: Entry)
    requires Inv(s) && Handover(s) && entry < s.nextEntry && !Owned(s, entry)
    ensures !Notified(s, actions, entry)
  {
    hide Run, Notified, Handover;
    RunPends(s, actions, entry);
    if key :| key in s.entries && s.entries[key] == entry {
      assert key in Orphans(s);
      ForgottenEntryStays(s, actions, key);
      assert Live(Run(s, actions), entry);
    }
  }

  lemma {:induction false} OneStep(s: State, a: Action)
    ensures Run(s, [a]) == Next(s, a)
  {
    hide Next;
    assert [a][..0] == [];
    assert Run(s, []) == s;
  }

  lemma {:induction false} TwoSteps(s: State, a: Action, b: Action)
    ensures Run(s, [a, b]) == Next(Next(s, a), b)
  {
    hide Next;
    assert [a, b][..1] == [a];
    OneStep(s, a);
  }

  lemma {:induction false} NotifierWakes(s: State, q: nat, r: nat, entry: Entry)
    requires At(s, r, Listening(entry, false)) && Notifies(s, q, entry)
    ensures WokenAt(Next(s, Notify(q)), r)
  {
  }

  lemma {:induction false} LeaderRemoves(s: State, q: nat, r: nat, key: Key)
    requires Inv(s) && Leads(s, q, key) && At(s, r, Listening(s.entries[key], false))
    ensures var t := Next(s, Logging(q)); At(t, r, Listening(s.entries[key], false)) && Notifies(t, q, s.entries[key])
  {
  }

  /**
   A waiter that has begun to listen can still be woken exactly if a request answers for its entry:
   not if the notification is past, and not if the entry's leader forgot it.
   */
  lemma {:induction false} CanBeWokenIff(s: State, r: nat, entry: Entry)
    requires Inv(s) && Handover(s) && At(s, r, Listening(entry, false))
    ensures (exists later :: WokenAt(Run(s, later), r)) <==> Owned(s, entry)
  {
    hide Run, Next, Notified, Handover;
    if q: nat :| Notifies(s, q, entry) {
      NotifierWakes(s, q, r, entry);
      OneStep(s, Notify(q));
      assert WokenAt(Run(s, [Notify(q)]), r);
    } else if q: nat, key :| Leads(s, q, key) && key in s.entries && s.entries[key] == entry {
      LeaderRemoves(s, q, r, key);
      NotifierWakes(Next(s, Logging(q)), q, r, entry);
      TwoSteps(s, Logging(q), Notify(q));
      assert WokenAt(Run(s, [Logging(q), Notify(q)]), r);
    } else {
      assert !Owned(s, entry);
      forall later ensures !WokenAt(Run(s, later), r) {
        UnownedIsNeverNotified(s, later, entry);
        WokenIffNotified(s, later, r, entry);
      }
    }
  }

  /** A leader's whole release before a waiter listens. */
  function ReleaseThenListen(s: State, r: nat, w: nat): State {
    Next(Next(Next(s, Logging(r)), Notify(r)), Listen(w))
  }

  /** The same with the waiter listening between the removal and the notification. */
  function ListenWithinRelease(s: State, r: nat, w: nat): State {
    Next(Next(Next(s, Logging(r)), Listen(w)), Notify(r))
  }

  lemma {:induction false} Released(s: State, r: nat, w: nat, key: Key)
    requires Inv(s) && Handover(s) && Leads(s, r, key) && At(s, w, Found(s.entries[key]))
    ensures var entry, t := s.entries[key], ReleaseThenListen(s, r, w);
            && Inv(t) && Handover(t) && At(t, w, Listening(entry, false)) && !Pending(t, entry)
            && WokenAt(ListenWithinRelease(s, r, w), w)
  {
    var entry := s.entries[key];
    var a := Next(s, Logging(r));
    var b := Next(a, Notify(r));
    var t := Next(b, Listen(w));
    assert Notifies(a, r, entry) && At(a, w, Found(entry)) && At(b, w, Found(entry));
    NotifierWakes(Next(a, Listen(w)), r, w, entry);
    hide Inv, Handover, Next, Pending;
    assert entry < s.nextEntry by { Given(s, key); }
    StepKeeps(s, Logging(r));
    StepPends(s, Logging(r), entry);
    StepKeeps(a, Notify(r));
    StepPends(a, Notify(r), entry);
    StepKeeps(b, Listen(w));
    StepPends(b, Listen(w), entry);
    assert At(t, w, Listening(entry, false)) by { Listens(b, w, entry); }
  }

  lemma {:induction false} Given(s: State, key: Key)
    requires Inv(s) && key in s.entries
    ensures s.entries[key] < s.nextEntry
  {
  }

  lemma {:induction false} Listens(s: State, w: nat, entry: Entry)
    requires At(s, w, Found(entry))
    ensures At(Next(s, Listen(w)), w, Listening(entry, false))
  {
  }

  /**
   The gap between finding an entry and listening: a notification in between is missed for good, a
   removal alone is not.
   */
  lemma {:induction false} LateListenerIsNeverWoken(s: State, r: nat, w: nat, key: Key, later: seq<Action>)
    requires Inv(s) && Handover(s) && Leads(s, r, key) && At(s, w, Found(s.entries[key]))
    ensures !WokenAt(Run(ReleaseThenListen(s, r, w), later), w)
    ensures WokenAt(ListenWithinRelease(s, r, w), w)
  {
    var entry, t := s.entries[key], ReleaseThenListen(s, r, w);
    Released(s, r, w, key);
    hide Run, Handover, Next, ReleaseThenListen, ListenWithinRelease;
    OwnedIsPending(t, entry);
    CanBeWokenIff(t, w, entry);
  }

  // ------------------------------------------------------------------------------------------
  // What each callback frees.

  /**
   After every run: the end of the stream and the end of the request free the key of a leader that still
   knows it, and that key alone; those of any other request free nothing.
   */
  lemma {:induction false} EndFreesTheLeadersKey(actions: seq<Action>, r: nat, a: Action)
    requires At(Run(Initial(), actions), r, Proceeding) && (a == EndOfStream(r) || a == Logging(r))
    ensures
      var s := Run(Initial(), actions);
      var q, t := s.requests[r], Next(s, a);
      && t.entries == (if q.leader && q.cacheKey.Some? then s.entries - {q.cacheKey.value} else s.entries)
      && !t.requests[r].leader
      && (q.leader && q.cacheKey.Some? ==> q.cacheKey.value in s.entries)
  {
    hide Run;
    EveryRun(actions);
    var s := Run(Initial(), actions);
    var q := s.requests[r];
    if q.leader && q.cacheKey.Some? { assert Leads(s, r, q.cacheKey.value); }
  }

  /**
   A request that releases its key stays with the notification until it has sent it, whatever the others
   do; then it goes on, or is over if it was at its last callback.
   */
  lemma {:induction false} ReleaseEnds(s: State, r: nat, a: Action, others: seq<Action>)
    requires At(s, r, Proceeding) && (a == EndOfStream(r) || a == Logging(r)) && Notify(r) !in others
    requires s.requests[r].leader && s.requests[r].cacheKey.Some? && s.requests[r].cacheKey.value in s.entries
    ensures
      var t := Run(Next(s, a), others);
      && At(t, r, Notifying(s.entries[s.requests[r].cacheKey.value], a.Logging?))
      && At(Next(t, Notify(r)), r, if a.Logging? then Finished else Proceeding)
    decreases |others|
  {
    if others != [] {
      ReleaseEnds(s, r, a, others[..|others| - 1]);
      var u, b := Run(Next(s, a), others[..|others| - 1]), others[|others| - 1];
      StaysNotifying(u, r, b);
    }
  }

  lemma {:induction false} StaysNotifying(s: State, r: nat, a: Action)
    requires r < |s.requests| && s.requests[r].stage.Notifying? && a != Notify(r)
    ensures At(Next(s, a), r, s.requests[r].stage)
  {
  }

  /** n failures to connect, one after another. */
  function Failures(r: nat, maxRetries: nat, n: nat): seq<Action> {
    seq(n, _ => FailToConnect(r, maxRetries))
  }

  /** Nothing but the count has changed since s; or the key is free and its entry about to be notified. */
  ghost predicate AfterFailures(s: State, t: State, r: nat, key: Key, maxRetries: nat, n: nat) {
    if r >= |s.requests| then false
    else if n < maxRetries || n == 0 then t == s.(requests := s.requests[r := s.requests[r].(tried := n)])
    else && t.entries == s.entries - {key} && key in s.entries
         && r < |t.requests| && !t.requests[r].leader && t.requests[r].stage.Notifying?
  }

  lemma {:induction false} OneMoreFailure(s: State, t: State, r: nat, key: Key, maxRetries: nat, n: nat)
    requires Leads(s, r, key) && key in s.entries && s.requests[r].stage == Proceeding
    requires AfterFailures(s, t, r, key, maxRetries, n)
    ensures AfterFailures(s, Next(t, FailToConnect(r, maxRetries)), r, key, maxRetries, n + 1)
  {
    if n < maxRetries || n == 0 {
      var q := s.requests[r];
      assert t.requests[r] == q.(tried := n);
      assert t.requests[r := t.requests[r].(tried := n + 1)] == s.requests[r := q.(tried := n + 1)];
    }
  }

  /**
   A leader keeps its key through the failures that are retried and gives it up with the first that is
   not: the one that brings the count to the limit, or the very first if there are no retries.
   */
  lemma {:induction false} LastFailureFreesTheKey(actions: seq<Action>, r: nat, key: Key, maxRetries: nat, n: nat)
    requires var s := Run(Initial(), actions); Leads(s, r, key) && s.requests[r].tried == 0
    ensures var s := Run(Initial(), actions);
      AfterFailures(s, Run(s, Failures(r, maxRetries, n)), r, key, maxRetries, n)
  {
    hide Next, Inv, AfterFailures;
    var s := Run(Initial(), actions);
    EveryRun(actions);
    Leading(s, r, key);
    if n == 0 {
      NoFailureYet(s, r, key, maxRetries);
    } else {
      LastFailureFreesTheKey(actions, r, key, maxRetries, n - 1);
      var all := Failures(r, maxRetries, n);
      assert all[..n - 1] == Failures(r, maxRetries, n - 1) && all[n - 1] == FailToConnect(r, maxRetries);
      OneMoreFailure(s, Run(s, all[..n - 1]), r, key, maxRetries, n - 1);
    }
  }

  lemma {:induction false} NoFailureYet(s: State, r: nat, key: Key, maxRetries: nat)
    requires r < |s.requests| && s.requests[r].tried == 0
    ensures AfterFailures(s, Run(s, Failures(r, maxRetries, 0)), r, key, maxRetries, 0)
  {
    assert s.requests[r := s.requests[r].(tried := 0)] == s.requests;
  }

  lemma {:induction false} Leading(s: State, r: nat, key: Key)
    requires Inv(s) && Leads(s, r, key)
    ensures key in s.entries && s.requests[r].stage == Proceeding
  {
  }
}
