/**
 How many requests of one counter key are let through in an interval of one window length, when
 each is dated by its counter lookup and when it is dated by its decision.
 */
module RateBound {
  import opened RateLimiter

  /** The time a request is dated by: of its decision, or of its counter lookup. */
  function Dated(stage: Stage, decided: bool): nat
    requires stage.Allowed?
  {
    if decided then stage.at else stage.since
  }

  /** The allowed requests of a key dated in the closed interval [from, from + length]. */
  ghost function AllowedIn(s: State, key: Key, from: nat, length: nat, decided: bool): set<nat> {
    set r: nat | r < |s.requests| && s.requests[r].key == key && s.requests[r].stage.Allowed?
                 && from <= Dated(s.requests[r].stage, decided) <= from + length
  }

  ghost function InWindow(rules: Rules, s: State, key: Key, from: nat, decided: bool): set<nat> {
    AllowedIn(s, key, from, rules(key).window, decided)
  }

  /** Every allowed request of the key was decided at most `lag` after its counter's life. */
  ghost predicate Prompt(rules: Rules, s: State, key: Key, lag: nat) {
    forall r | 0 <= r < |s.requests| && s.requests[r].key == key && s.requests[r].stage.Allowed? ::
      var q := s.requests[r].stage;
      q.counter < |s.store.heap| &&
      var birth := s.store.heap[q.counter].birth;
      q.at == birth || q.at < birth + rules(key).window + lag
  }

  lemma {:induction false} MetIn(rules: Rules, s: State, key: Key, from: nat, decided: bool, r: nat)
    requires Inv(rules, s) && r in InWindow(rules, s, key, from, decided)
    requires decided ==> Prompt(rules, s, key, 0)
    ensures var id, time := s.requests[r].stage.counter, Dated(s.requests[r].stage, decided);
            && id < |s.store.heap| && s.store.heap[id].key == key && r in AllowedBy(s, id)
            && s.store.heap[id].birth <= time <= from + rules(key).window
            && from <= time && (time == s.store.heap[id].birth || time < s.store.heap[id].birth + rules(key).window)
  {
    assert MetAlive(rules, s, s.requests[r]);
  }

  /** An interval as long as the window meets at most two counters of the key. */
  lemma {:induction false} AtMostTwoCounters(
      rules: Rules, s: State, key: Key, from: nat, decided: bool, p: nat, q: nat, r: nat)
    requires Inv(rules, s) && rules(key).window > 0 && (decided ==> Prompt(rules, s, key, 0))
    requires p in InWindow(rules, s, key, from, decided)
    requires q in InWindow(rules, s, key, from, decided)
    requires r in InWindow(rules, s, key, from, decided)
    requires s.requests[p].stage.counter < s.requests[q].stage.counter
    ensures s.requests[r].stage.counter in {s.requests[p].stage.counter, s.requests[q].stage.counter}
  {
    MetIn(rules, s, key, from, decided, p);
    MetIn(rules, s, key, from, decided, q);
    MetIn(rules, s, key, from, decided, r);
    var heap := s.store.heap;
    var i, j := s.requests[p].stage.counter, s.requests[q].stage.counter;
    assert heap[i].birth + rules(key).window <= heap[j].birth;
  }

  lemma {:induction false} SubsetSize(a: set<nat>, b: set<nat>)
    requires a <= b
    ensures |a| <= |b|
  {
    if a != {} {
      var x :| x in a;
      SubsetSize(a - {x}, b - {x});
    }
  }

  lemma {:induction false} CoveredByTwo(
      rules: Rules, s: State, key: Key, from: nat, decided: bool, p: nat, q: nat)
    requires Inv(rules, s) && rules(key).window > 0 && (decided ==> Prompt(rules, s, key, 0))
    requires p in InWindow(rules, s, key, from, decided)
    requires q in InWindow(rules, s, key, from, decided)
    requires forall r | r in InWindow(rules, s, key, from, decided) ::
               s.requests[r].stage.counter in {s.requests[p].stage.counter, s.requests[q].stage.counter}
    ensures |InWindow(rules, s, key, from, decided)| <= 2 * rules(key).rate
  {
    var i, j := s.requests[p].stage.counter, s.requests[q].stage.counter;
    var all, a, b := InWindow(rules, s, key, from, decided), AllowedBy(s, i), AllowedBy(s, j);
    MetIn(rules, s, key, from, decided, p);
    MetIn(rules, s, key, from, decided, q);
    assert Exact(rules, s, i) && Exact(rules, s, j);
    assert all <= a + b;
    SubsetSize(all, a + b);
    assert |a + b| <= |a| + |b|;
  }

  lemma {:induction false} BoundFromInvariant(rules: Rules, s: State, key: Key, from: nat, decided: bool)
    requires Inv(rules, s) && rules(key).window > 0 && (decided ==> Prompt(rules, s, key, 0))
    ensures |InWindow(rules, s, key, from, decided)| <= 2 * rules(key).rate
  {
    hide Inv, Prompt;
    var all := InWindow(rules, s, key, from, decided);
    if p :| p in all {
      if q :| q in all && s.requests[q].stage.counter != s.requests[p].stage.counter {
        var (lo, hi) := if s.requests[p].stage.counter < s.requests[q].stage.counter then (p, q) else (q, p);
        forall r | r in all
          ensures s.requests[r].stage.counter in {s.requests[lo].stage.counter, s.requests[hi].stage.counter}
        {
          AtMostTwoCounters(rules, s, key, from, decided, lo, hi, r);
        }
        CoveredByTwo(rules, s, key, from, decided, lo, hi);
      } else {
        CoveredByTwo(rules, s, key, from, decided, p, p);
      }
    }
  }

  lemma {:induction false} RateZero(rules: Rules, s: State, key: Key, from: nat, decided: bool)
    requires Inv(rules, s) && rules(key).rate == 0
    ensures InWindow(rules, s, key, from, decided) == {}
  {
    if r :| r in InWindow(rules, s, key, from, decided) {
      assert MetAlive(rules, s, s.requests[r]);
      AllowsNothing(rules, s, s.requests[r].stage.counter, r);
    }
  }

  lemma {:induction false} AllowsNothing(rules: Rules, s: State, id: nat, r: nat)
    requires Inv(rules, s) && id < |s.store.heap| && rules(s.store.heap[id].key).rate == 0
    ensures r !in AllowedBy(s, id)
  {
    assert Exact(rules, s, id);
  }

  // ------------------------------------------------------------------------------------------
  // Building runs.

  lemma {:induction false} RunOne(rules: Rules, s: State, before: seq<Action>, a: Action)
    requires Sound(s)
    ensures Run(rules, s, before + [a]) == Next(rules, Run(rules, s, before), a)
  {
  }

  lemma {:induction false} RunConcat(rules: Rules, s: State, a: seq<Action>, b: seq<Action>)
    requires Sound(s)
    ensures Run(rules, s, a + b) == Run(rules, Run(rules, s, a), b)
    decreases |b|
  {
    hide Next;
    if b == [] {
      assert a + b == a;
    } else {
      var front, last := b[..|b| - 1], b[|b| - 1];
      RunConcat(rules, s, a, front);
      RunOne(rules, s, a + front, last);
      assert a + b == a + front + [last];
    }
  }

  /** Three actions that bring a new request to its counter. */
  function Hold(client: Client, key: Key, r: nat): seq<Action> {
    [Arrive(client, key)] + [CheckBan(r)] + [FindCounter(r)]
  }

  function Holds(client: Client, key: Key, first: nat, n: nat): seq<Action> {
    if n == 0 then [] else Holds(client, key, first, n - 1) + Hold(client, key, first + n - 1)
  }

  function Counts(first: nat, n: nat): seq<Action> {
    if n == 0 then [] else Counts(first, n - 1) + [Count(first + n - 1)]
  }

  ghost predicate Batch(s: State, first: nat, n: nat, key: Key, stage: Stage) {
    first + n <= |s.requests| &&
    forall i | first <= i < first + n :: s.requests[i].key == key && s.requests[i].stage == stage
  }

  lemma {:induction false} HoldOne(rules: Rules, s: State, client: Client, key: Key)
    requires Sound(s) && s.store.bans == map[]
    ensures var t := Run(rules, s, Hold(client, key, |s.requests|));
            var (store, id) := Lookup(s.store, key, rules(key).window, s.now);
            t == State(s.now, store, s.requests + [Request(client, key, Holding(id, s.now))])
  {
    var r := |s.requests|;
    var a, b := Next(rules, s, Arrive(client, key)), Next(rules, Next(rules, s, Arrive(client, key)), CheckBan(r));
    RunOne(rules, s, [], Arrive(client, key));
    RunOne(rules, s, [] + [Arrive(client, key)], CheckBan(r));
    RunOne(rules, s, [Arrive(client, key)] + [CheckBan(r)], FindCounter(r));
    assert Run(rules, s, []) == s;
    hide Run, Lookup;
    assert [] + [Arrive(client, key)] == [Arrive(client, key)];
    assert b.requests == s.requests + [Request(client, key, Cleared)];
  }

  /** A second lookup at the same time finds the same counter, for any positive window. */
  lemma {:induction false} LookupAgain(st: Store, key: Key, window: nat, now: nat)
    requires st.Valid() && window > 0
    ensures var r := Lookup(st, key, window, now); Lookup(r.0, key, window, now) == r
  {
  }

  lemma {:induction false} HoldMany(rules: Rules, s: State, client: Client, key: Key, n: nat)
    requires Sound(s) && s.store.bans == map[] && n > 0 && (rules(key).window > 0 || n == 1)
    ensures var t := Run(rules, s, Holds(client, key, |s.requests|, n));
            var (store, id) := Lookup(s.store, key, rules(key).window, s.now);
            && t.now == s.now && t.store == store && |t.requests| == |s.requests| + n
            && t.requests[..|s.requests|] == s.requests && Batch(t, |s.requests|, n, key, Holding(id, s.now))
  {
    hide Next, Lookup, Hold;
    var first := |s.requests|;
    var front := Holds(client, key, first, n - 1);
    RunConcat(rules, s, front, Hold(client, key, first + n - 1));
    LookupKeepsBans(s.store, key, rules(key).window, s.now);
    if n > 1 {
      LookupAgain(s.store, key, rules(key).window, s.now);
      HoldMany(rules, s, client, key, n - 1);
    }
    HoldOne(rules, Run(rules, s, front), client, key);
  }

  lemma {:induction false} LookupKeepsBans(st: Store, key: Key, window: nat, now: nat)
    requires st.Valid()
    ensures Lookup(st, key, window, now).0.bans == st.bans
  {
  }

  function Bumped(st: Store, id: nat, n: nat): Store
    requires id < |st.heap|
  {
    st.(heap := st.heap[id := st.heap[id].(count := st.heap[id].count + n)])
  }

  lemma {:induction false} CountOne(rules: Rules, s: State, r: nat)
    requires Sound(s) && r < |s.requests| && s.requests[r].stage.Holding?
    requires s.store.heap[s.requests[r].stage.counter].count < rules(s.requests[r].key).rate
    ensures var q := s.requests[r];
            var stage := Allowed(q.stage.counter, q.stage.since, s.now);
            Next(rules, s, Count(r))
            == State(s.now, Bumped(s.store, q.stage.counter, 1), s.requests[r := q.(stage := stage)])
  {
  }

  lemma {:induction false} BumpedTwice(st: Store, id: nat, n: nat)
    requires id < |st.heap|
    ensures |Bumped(st, id, n).heap| == |st.heap| && Bumped(st, id, n).heap[id].count == st.heap[id].count + n
    ensures Bumped(Bumped(st, id, n), id, 1) == Bumped(st, id, n + 1) && Bumped(st, id, 0) == st
  {
  }

  /** Counting requests that hold one counter, as long as the rate is not passed, allows them all. */
  lemma {:induction false} CountMany(rules: Rules, s: State, first: nat, n: nat, key: Key, id: nat, since: nat)
    requires Sound(s) && id < |s.store.heap| && Batch(s, first, n, key, Holding(id, since))
    requires s.store.heap[id].count + n <= rules(key).rate
    ensures var t := Run(rules, s, Counts(first, n));
            && t.now == s.now && t.store == Bumped(s.store, id, n)
            && |t.requests| == |s.requests| && Batch(t, first, n, key, Allowed(id, since, s.now))
            && forall i | 0 <= i < |s.requests| && !(first <= i < first + n) :: t.requests[i] == s.requests[i]
  {
    hide Run, Next, Bumped, Sound;
    if n == 0 {
      RunNothing(rules, s);
      BumpedTwice(s.store, id, 0);
    } else {
      var r, u := first + n - 1, Run(rules, s, Counts(first, n - 1));
      CountMany(rules, s, first, n - 1, key, id, since);
      BumpedTwice(s.store, id, n - 1);
      RunOne(rules, s, Counts(first, n - 1), Count(r));
      assert u.requests[r] == s.requests[r];
      CountOne(rules, u, r);
    }
  }

  lemma {:induction false} RunNothing(rules: Rules, s: State)
    requires Sound(s)
    ensures Run(rules, s, []) == s
  {
  }

  lemma {:induction false} Waits(rules: Rules, s: State, ticks: nat)
    requires Sound(s)
    ensures Run(rules, s, [Tick(ticks)]) == s.(now := s.now + ticks)
  {
    RunOne(rules, s, [], Tick(ticks));
    assert [] + [Tick(ticks)] == [Tick(ticks)];
  }

  /** `n` requests that reach the key's counter and count at once. */
  function Visits(client: Client, key: Key, first: nat, n: nat): seq<Action> {
    Holds(client, key, first, n) + Counts(first, n)
  }

  lemma {:induction false} NewCounter(st: Store, key: Key, window: nat, now: nat)
    requires st.Valid() && !HasCounter(st, key, window, now)
    ensures Lookup(st, key, window, now)
         == (Store(st.heap + [Counter(key, now, 0)], st.current[key := |st.heap|], st.bans), |st.heap|)
  {
  }

  /** n more requests, all allowed at once by a counter that starts with them. */
  ghost predicate Visited(s: State, t: State, key: Key, n: nat) {
    && t.now == s.now && |t.requests| == |s.requests| + n
    && t.store == Store(s.store.heap + [Counter(key, s.now, n)], s.store.current[key := |s.store.heap|], map[])
    && (forall i | 0 <= i < |s.requests| :: t.requests[i] == s.requests[i])
    && Batch(t, |s.requests|, n, key, Allowed(|s.store.heap|, s.now, s.now))
  }

  /** When the key has no live counter, up to `rate` visits start one and are all allowed by it. */
  lemma {:induction false} VisitMany(rules: Rules, s: State, client: Client, key: Key, n: nat)
    requires Sound(s) && s.store.bans == map[] && !HasCounter(s.store, key, rules(key).window, s.now)
    requires 0 < n <= rules(key).rate && (rules(key).window > 0 || n == 1)
    ensures Visited(s, Run(rules, s, Visits(client, key, |s.requests|, n)), key, n)
  {
    hide Run, Next, Holds, Counts, Lookup, Bumped, HasCounter;
    var first, id := |s.requests|, |s.store.heap|;
    RunConcat(rules, s, Holds(client, key, first, n), Counts(first, n));
    HoldMany(rules, s, client, key, n);
    NewCounter(s.store, key, rules(key).window, s.now);
    var u := Run(rules, s, Holds(client, key, first, n));
    CountMany(rules, u, first, n, key, id, s.now);
    CountNew(s.store, key, s.now, n);
    forall i | 0 <= i < first ensures u.requests[i] == s.requests[i] { assert u.requests[..first][i] == s.requests[i]; }
  }

  lemma {:induction false} CountNew(st: Store, key: Key, now: nat, n: nat)
    ensures var started := Store(st.heap + [Counter(key, now, 0)], st.current[key := |st.heap|], st.bans);
            Bumped(started, |st.heap|, n) == started.(heap := st.heap + [Counter(key, now, n)])
  {
  }

  function Below(n: nat): (r: set<nat>)
    ensures |r| == n && forall i: nat :: i in r <==> i < n
  {
    if n == 0 then {} else Below(n - 1) + {n - 1}
  }

  /** All requests are the key's, were allowed, and are dated in the interval. */
  lemma {:induction false} AllIn(s: State, key: Key, from: nat, length: nat, decided: bool)
    requires forall i | 0 <= i < |s.requests| ::
               s.requests[i].key == key && s.requests[i].stage.Allowed?
               && from <= Dated(s.requests[i].stage, decided) <= from + length
    ensures |AllowedIn(s, key, from, length, decided)| == |s.requests|
  {
    assert AllowedIn(s, key, from, length, decided) == Below(|s.requests|);
  }

  // ------------------------------------------------------------------------------------------
  // The bound is attained.

  function TwoBursts(client: Client, key: Key, rate: nat, window: nat): seq<Action> {
    Visits(client, key, 0, rate) + [Tick(window)] + Visits(client, key, rate, rate)
  }

  lemma {:induction false} StartsEmpty(rules: Rules)
    ensures Sound(Initial()) && Run(rules, Initial(), []) == Initial()
  {
  }

  /** Two bursts one window apart, each of the full rate, with nothing interleaved. */
  lemma {:induction false} BoundIsAttained(rules: Rules, client: Client, key: Key, decided: bool)
    requires rules(key).rate > 0 && rules(key).window > 0
    ensures var s := Run(rules, Initial(), TwoBursts(client, key, rules(key).rate, rules(key).window));
            Prompt(rules, s, key, 0) && |InWindow(rules, s, key, 0, decided)| == 2 * rules(key).rate
  {
    hide Run, Visits, HasCounter, Sound;
    var n, w := rules(key).rate, rules(key).window;
    var first, second := Visits(client, key, 0, n), Visits(client, key, n, n);
    StartsEmpty(rules);
    NoneAtFirst(key, w);
    VisitMany(rules, Initial(), client, key, n);
    var a := Run(rules, Initial(), first);
    Waits(rules, a, w);
    var b := a.(now := w);
    RunConcat(rules, Initial(), first, [Tick(w)]);
    RunConcat(rules, Initial(), first + [Tick(w)], second);
    Expired(b.store, key, w, b.now);
    VisitMany(rules, b, client, key, n);
    TwoDates(rules, a, b, Run(rules, b, second), key, n, decided);
  }

  lemma {:induction false} TwoDates(rules: Rules, a: State, b: State, s: State, key: Key, n: nat, decided: bool)
    requires Visited(Initial(), a, key, n) && b == a.(now := rules(key).window) && Visited(b, s, key, n)
    ensures Prompt(rules, s, key, 0) || rules(key).window == 0
    ensures |InWindow(rules, s, key, 0, decided)| == 2 * n
  {
    var w := rules(key).window;
    forall i | 0 <= i < 2 * n
      ensures s.requests[i].key == key && s.requests[i].stage == if i < n then Allowed(0, 0, 0) else Allowed(1, w, w)
    {
    }
    AllIn(s, key, 0, w, decided);
  }

  lemma {:induction false} NoneAtFirst(key: Key, window: nat)
    ensures Initial().store.Valid() && !HasCounter(Initial().store, key, window, 0)
  {
  }

  lemma {:induction false} Expired(st: Store, key: Key, window: nat, now: nat)
    requires st.Valid() && key in st.current && st.heap[st.current[key]].birth + window <= now
    ensures !HasCounter(st, key, window, now)
  {
  }

  // ------------------------------------------------------------------------------------------
  // A window of zero never limits.

  function Burst(client: Client, key: Key, n: nat): seq<Action> {
    if n == 0 then [] else Burst(client, key, n - 1) + Visits(client, key, n - 1, 1)
  }

  ghost predicate AllAtZero(s: State, key: Key, n: nat) {
    && s.now == 0 && s.store.bans == map[] && |s.requests| == n
    && (forall i | 0 <= i < |s.store.heap| :: s.store.heap[i].birth == 0)
    && forall r | 0 <= r < n ::
         s.requests[r].key == key && s.requests[r].stage.Allowed? && s.requests[r].stage.counter < |s.store.heap|
         && s.requests[r].stage.since == 0 && s.requests[r].stage.at == 0
  }

  lemma {:induction false} BurstIsAllowed(rules: Rules, client: Client, key: Key, n: nat)
    requires rules(key).window == 0 && rules(key).rate > 0
    ensures AllAtZero(Run(rules, Initial(), Burst(client, key, n)), key, n)
  {
    hide Run, Visits, HasCounter;
    StartsEmpty(rules);
    if n > 0 {
      BurstIsAllowed(rules, client, key, n - 1);
      var before, visit := Burst(client, key, n - 1), Visits(client, key, n - 1, 1);
      RunConcat(rules, Initial(), before, visit);
      var s := Run(rules, Initial(), before);
      NoLiveCounter(s, key);
      VisitMany(rules, s, client, key, 1);
    }
  }

  lemma {:induction false} NoLiveCounter(s: State, key: Key)
    requires s.store.Valid() && s.now == 0
    requires forall i | 0 <= i < |s.store.heap| :: s.store.heap[i].birth == 0
    ensures !HasCounter(s.store, key, 0, 0)
  {
  }

  // ------------------------------------------------------------------------------------------
  // When the bound on lookups holds.

  /** Dated by lookup: 2 * rate, over all runs and all closed intervals of one window length. */
  ghost predicate LimitsLookups(rules: Rules, key: Key) {
    forall actions: seq<Action>, from: nat ::
      |InWindow(rules, Run(rules, Initial(), actions), key, from, false)| <= 2 * rules(key).rate
  }

  lemma {:induction false} RunIsLimited(rules: Rules, actions: seq<Action>, key: Key, from: nat, decided: bool)
    requires rules(key).window > 0 || rules(key).rate == 0
    requires decided && rules(key).rate > 0 ==> Prompt(rules, Run(rules, Initial(), actions), key, 0)
    ensures |InWindow(rules, Run(rules, Initial(), actions), key, from, decided)| <= 2 * rules(key).rate
  {
    hide Run, Prompt;
    EveryRun(rules, actions);
    if rules(key).rate == 0 {
      RateZero(rules, Run(rules, Initial(), actions), key, from, decided);
    } else {
      BoundFromInvariant(rules, Run(rules, Initial(), actions), key, from, decided);
    }
  }

  lemma {:induction false} ZeroWindowIsUnlimited(rules: Rules, key: Key, decided: bool, lag: nat)
    requires rules(key).window == 0 && rules(key).rate > 0
    ensures exists actions: seq<Action> ::
              && Prompt(rules, Run(rules, Initial(), actions), key, lag)
              && |InWindow(rules, Run(rules, Initial(), actions), key, 0, decided)| > 2 * rules(key).rate
  {
    var n := 2 * rules(key).rate + 1;
    BurstIsAllowed(rules, "", key, n);
    hide Run;
    var actions := Burst("", key, n);
    AllIn(Run(rules, Initial(), actions), key, 0, 0, decided);
    assert Prompt(rules, Run(rules, Initial(), actions), key, lag);
  }

  /** By lookup, every run keeps the bound if and only if the window is not zero or nothing is allowed. */
  lemma {:induction false} LimitsLookupsIff(rules: Rules, key: Key)
    ensures LimitsLookups(rules, key) <==> rules(key).window > 0 || rules(key).rate == 0
  {
    hide Run;
    if rules(key).window > 0 || rules(key).rate == 0 {
      forall actions: seq<Action>, from: nat
        ensures |InWindow(rules, Run(rules, Initial(), actions), key, from, false)| <= 2 * rules(key).rate
      {
        RunIsLimited(rules, actions, key, from, false);
      }
    } else {
      ZeroWindowIsUnlimited(rules, key, false, 0);
    }
  }
}
