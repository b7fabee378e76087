/**
 What coalescing is for: while one request for a key is on its way to the origin, the others wait, until
 they are notified or time out.
 */
module Followers {
  import opened Wrappers
  import opened Coalescing

  /** Not on its way to the origin: it has found the entry, or listens on it and was not woken yet. */
  ghost predicate Waits(s: State, r: nat, entry: Entry) {
    r < |s.requests| && !s.requests[r].leader
    && (s.requests[r].stage == Found(entry) || s.requests[r].stage == Listening(entry, false))
  }

  /** A request goes ahead if it is the first for its key, and otherwise waits for the one that did. */
  lemma {:induction false} FirstLeadsOthersWait(actions: seq<Action>, r: nat, key: Key)
    requires At(Run(Initial(), actions), r, Fresh)
    ensures
      var s := Run(Initial(), actions);
      var t := Next(s, Filter(r, key));
      if key in s.entries then Waits(t, r, s.entries[key]) && t.entries == s.entries
      else && Leads(t, r, key) && t.requests[r].stage == Proceeding
           && t.entries == s.entries[key := s.nextEntry] && t.nextEntry > s.nextEntry
           && !exists q: nat :: Leads(s, q, key)
  {
    hide Run;
    EveryRun(actions);
  }

  lemma {:induction false} StepWaits(s: State, a: Action, r: nat, entry: Entry)
    requires Waits(s, r, entry) && a != Timeout(r) && !NotifyStep(s, a, entry)
    ensures Waits(Next(s, a), r, entry)
  {
  }

  /** It goes on waiting, whatever happens, as long as its entry is not notified and it does not time out. */
  lemma {:induction false} WaitsUntilNotified(s: State, later: seq<Action>, r: nat, entry: Entry)
    requires Waits(s, r, entry) && Timeout(r) !in later && !Notified(s, later, entry)
    ensures Waits(Run(s, later), r, entry)
    decreases |later|
  {
    hide Next, Waits, NotifyStep;
    if later != [] {
      WaitsUntilNotified(s, later[..|later| - 1], r, entry);
      StepWaits(Run(s, later[..|later| - 1]), later[|later| - 1], r, entry);
    }
  }

  /** In every run: one origin fetch per key, as far as waiters are patient. */
  lemma {:induction false} FollowerWaits(actions: seq<Action>, r: nat, key: Key, later: seq<Action>)
    requires var s := Run(Initial(), actions);
      && At(s, r, Fresh) && key in s.entries
      && Timeout(r) !in later && !Notified(Next(s, Filter(r, key)), later, s.entries[key])
    ensures var s := Run(Initial(), actions); Waits(Run(Next(s, Filter(r, key)), later), r, s.entries[key])
  {
    hide Next, Waits, Notified, Run;
    var s := Run(Initial(), actions);
    FirstLeadsOthersWait(actions, r, key);
    WaitsUntilNotified(Next(s, Filter(r, key)), later, r, s.entries[key]);
  }

  /** A listener is let go by its time-out at any time, by a wake-up once notified, and by no other step. */
  lemma {:induction false} LetGoIff(actions: seq<Action>, r: nat, a: Action)
    requires var s := Run(Initial(), actions); r < |s.requests| && s.requests[r].stage.Listening?
    ensures
      var s := Run(Initial(), actions);
      var q, t := s.requests[r], Next(s, a);
      && r < |t.requests|
      && (t.requests[r].stage == Proceeding <==> a == Timeout(r) || (a == Resume(r) && q.stage.woken))
      && (t.requests[r].stage != Proceeding ==> t.requests[r].stage.Listening?)
  {
    hide Run;
  }
}
