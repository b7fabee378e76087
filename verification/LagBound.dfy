/**
 How many requests of one counter key are decided in an interval of one window length, when every
 request is decided at most some lag after the life of the counter it looked up.
 */
module LagBound {
  import opened RateLimiter
  import opened RateBound

  /** Windows, or parts of one, in the lag. */
  function Ceiling(lag: nat, window: nat): nat
    requires window > 0
  {
    (lag + window - 1) / window
  }

  /** As many counters can decide requests in one interval. */
  function Most(lag: nat, window: nat): nat
    requires window > 0
  {
    2 + Ceiling(lag, window)
  }

  // ------------------------------------------------------------------------------------------
  // The bound.

  /** Counting windows back from the interval's end, the one in which a request's counter began. */
  function Slot(rules: Rules, s: State, key: Key, from: nat, r: nat): int
    requires rules(key).window > 0 && r < |s.requests| && s.requests[r].stage.Allowed?
  {
    var id, end := s.requests[r].stage.counter, from + rules(key).window;
    if id < |s.store.heap| then (end - s.store.heap[id].birth) / rules(key).window else 0
  }

  lemma {:induction false} SlotExists(rules: Rules, s: State, key: Key, from: nat, lag: nat, r: nat)
    requires Inv(rules, s) && rules(key).window > 0 && Prompt(rules, s, key, lag)
    requires r in InWindow(rules, s, key, from, true)
    ensures var id := s.requests[r].stage.counter;
      && id < |s.store.heap| && s.store.heap[id].key == key && r in AllowedBy(s, id)
      && s.store.heap[id].birth <= from + rules(key).window
      && 0 <= Slot(rules, s, key, from, r) < Most(lag, rules(key).window)
  {
    hide Separate, Exact, Most;
    assert MetAlive(rules, s, s.requests[r]);
    var birth, w := s.store.heap[s.requests[r].stage.counter].birth, rules(key).window;
    SlotBound(from + w - birth, lag, w);
  }

  lemma {:induction false} SlotBound(back: nat, lag: nat, w: nat)
    requires w > 0 && back < 2 * w + lag
    ensures 0 <= back / w < Most(lag, w)
  {
    var q := Ceiling(lag, w);
    assert lag <= q * w by { CeilingCovers(lag, w); }
    assert back >= (back / w) * w && (q + 2) * w == q * w + 2 * w;
    if back / w >= q + 2 { Grows(q + 2, back / w, w); }
  }

  lemma {:induction false} Grows(a: nat, b: nat, w: nat)
    requires a <= b
    ensures a * w <= b * w
  {
  }

  lemma {:induction false} CeilingCovers(lag: nat, w: nat)
    requires w > 0
    ensures lag <= Ceiling(lag, w) * w < lag + w
  {
    var x := lag + w - 1;
    assert x == (x / w) * w + x % w && x % w < w;
  }

  /** The requests decided in the interval whose counters began in its last n slots. */
  ghost function InSlots(rules: Rules, s: State, key: Key, from: nat, n: nat): set<nat>
    requires rules(key).window > 0
  {
    set r | r in InWindow(rules, s, key, from, true) && Slot(rules, s, key, from, r) < n
  }

  /** Counters of one key begin at least a window apart, so two in one slot are the same. */
  lemma {:induction false} OneCounterInSlot(rules: Rules, s: State, key: Key, from: nat, lag: nat, q: nat, r: nat)
    requires Inv(rules, s) && rules(key).window > 0 && Prompt(rules, s, key, lag)
    requires q in InWindow(rules, s, key, from, true) && r in InWindow(rules, s, key, from, true)
    requires Slot(rules, s, key, from, q) == Slot(rules, s, key, from, r)
    ensures s.requests[q].stage.counter == s.requests[r].stage.counter
  {
    SlotExists(rules, s, key, from, lag, q);
    SlotExists(rules, s, key, from, lag, r);
    var heap, w := s.store.heap, rules(key).window;
    var i, j := s.requests[q].stage.counter, s.requests[r].stage.counter;
    if i < j {
      assert heap[i].birth + w <= heap[j].birth;
      Apart(from + w - heap[j].birth, from + w - heap[i].birth, w);
    } else if j < i {
      assert heap[j].birth + w <= heap[i].birth;
      Apart(from + w - heap[i].birth, from + w - heap[j].birth, w);
    }
  }

  lemma {:induction false} Apart(x: nat, y: nat, w: nat)
    requires w > 0 && x + w <= y
    ensures x / w < y / w
  {
    assert x == (x / w) * w + x % w && y == (y / w) * w + y % w && y % w < w;
    if y / w <= x / w { Grows(y / w, x / w, w); }
  }

  lemma {:induction false} SlotAllows(rules: Rules, s: State, key: Key, from: nat, lag: nat, n: nat)
    requires Inv(rules, s) && rules(key).window > 0 && Prompt(rules, s, key, lag)
    ensures |InSlots(rules, s, key, from, n + 1)| <= |InSlots(rules, s, key, from, n)| + rules(key).rate
  {
    var before, upTo := InSlots(rules, s, key, from, n), InSlots(rules, s, key, from, n + 1);
    var slot := upTo - before;
    assert upTo == before + slot;
    if q :| q in slot {
      SlotExists(rules, s, key, from, lag, q);
      var id := s.requests[q].stage.counter;
      forall r | r in slot ensures r in AllowedBy(s, id) {
        SlotExists(rules, s, key, from, lag, r);
        OneCounterInSlot(rules, s, key, from, lag, q, r);
      }
      SubsetSize(slot, AllowedBy(s, id));
      assert Exact(rules, s, id);
    }
  }

  lemma {:induction false} SlotsAllow(rules: Rules, s: State, key: Key, from: nat, lag: nat, n: nat)
    requires Inv(rules, s) && rules(key).window > 0 && Prompt(rules, s, key, lag)
    ensures |InSlots(rules, s, key, from, n)| <= n * rules(key).rate
  {
    hide Inv, Prompt;
    if n == 0 {
      forall r | r in InWindow(rules, s, key, from, true) ensures Slot(rules, s, key, from, r) >= 0 {
        SlotExists(rules, s, key, from, lag, r);
      }
    } else {
      SlotsAllow(rules, s, key, from, lag, n - 1);
      SlotAllows(rules, s, key, from, lag, n - 1);
      assert n * rules(key).rate == (n - 1) * rules(key).rate + rules(key).rate;
    }
  }

  lemma {:induction false} LagBoundHolds(rules: Rules, s: State, key: Key, from: nat, lag: nat)
    requires Inv(rules, s) && rules(key).window > 0 && Prompt(rules, s, key, lag)
    ensures |InWindow(rules, s, key, from, true)| <= Most(lag, rules(key).window) * rules(key).rate
  {
    hide Inv, Prompt, Most, Slot;
    var all := InWindow(rules, s, key, from, true);
    forall r | r in all ensures r in InSlots(rules, s, key, from, Most(lag, rules(key).window)) {
      SlotExists(rules, s, key, from, lag, r);
    }
    assert all == InSlots(rules, s, key, from, Most(lag, rules(key).window));
    SlotsAllow(rules, s, key, from, lag, Most(lag, rules(key).window));
  }

  // ------------------------------------------------------------------------------------------
  // The bound is attained: bursts that look their counters up a window apart and are all decided at
  // the last moment, then two that are decided at once.

  function LateHolds(client: Client, key: Key, n: nat, window: nat, c: nat): seq<Action> {
    if c == 0 then []
    else LateHolds(client, key, n, window, c - 1) + Holds(client, key, (c - 1) * n, n) + [Tick(window)]
  }

  function LateCounts(n: nat, j: nat): seq<Action> {
    if j == 0 then [] else LateCounts(n, j - 1) + Counts((j - 1) * n, n)
  }

  /** Burst k: n requests that were allowed now by the k-th counter, if k is below j, or still hold it. */
  ghost predicate OneBurst(s: State, key: Key, n: nat, window: nat, k: nat, j: nat) {
    && k < |s.store.heap| && s.store.heap[k] == Counter(key, k * window, if k < j then n else 0)
    && Batch(s, k * n, n, key, if k < j then Allowed(k, k * window, s.now) else Holding(k, k * window))
  }

  /** c bursts a window apart, the first j of them decided now. */
  ghost predicate Bursts(s: State, key: Key, n: nat, window: nat, c: nat, j: nat) {
    && s.now == c * window && |s.store.heap| == c && s.store.bans == map[] && |s.requests| == c * n
    && (if c == 0 then key !in s.store.current else key in s.store.current && s.store.current[key] == c - 1)
    && forall k: nat | k < c :: OneBurst(s, key, n, window, k, j)
  }

  lemma {:induction false} NoneAlive(s: State, key: Key, n: nat, window: nat, c: nat, j: nat)
    requires Sound(s) && Bursts(s, key, n, window, c, j)
    ensures !HasCounter(s.store, key, window, s.now)
  {
    if c > 0 {
      assert OneBurst(s, key, n, window, c - 1, j);
      assert c * window == (c - 1) * window + window;
    }
  }

  lemma {:induction false} HoldBurst(rules: Rules, s: State, client: Client, key: Key, n: nat, c: nat)
    requires Sound(s) && n > 0 && rules(key).window > 0 && Bursts(s, key, n, rules(key).window, c, 0)
    ensures var w := rules(key).window;
      Bursts(Run(rules, s, Holds(client, key, c * n, n) + [Tick(w)]), key, n, w, c + 1, 0)
  {
    hide Run, Holds, Lookup, HasCounter, Sound, Batch;
    var w := rules(key).window;
    NoneAlive(s, key, n, w, c, 0);
    assert s.store.Valid() by { SoundIsValid(s); }
    NewCounter(s.store, key, w, s.now);
    HoldMany(rules, s, client, key, n);
    RunConcat(rules, s, Holds(client, key, c * n, n), [Tick(w)]);
    var u := Run(rules, s, Holds(client, key, c * n, n));
    Waits(rules, u, w);
    var t := u.(now := u.now + w);
    assert (c + 1) * w == c * w + w && (c + 1) * n == c * n + n;
    assert Batch(t, c * n, n, key, Holding(c, c * w)) by { SameBatch(u, t, c * n, n, key, Holding(c, c * w)); }
    forall k: nat | k < c + 1 ensures OneBurst(t, key, n, w, k, 0) {
      if k < c {
        assert OneBurst(s, key, n, w, k, 0);
        Earlier(s, t, key, n, k, c, Holding(k, k * w));
        assert t.store.heap[k] == s.store.heap[k];
      }
    }
  }

  lemma {:induction false} SoundIsValid(s: State)
    requires Sound(s)
    ensures s.store.Valid()
  {
  }

  lemma {:induction false} SameBatch(s: State, t: State, first: nat, n: nat, key: Key, stage: Stage)
    requires Batch(s, first, n, key, stage) && t.requests == s.requests
    ensures Batch(t, first, n, key, stage)
  {
  }

  lemma {:induction false} Earlier(s: State, t: State, key: Key, n: nat, k: nat, c: nat, stage: Stage)
    requires Batch(s, k * n, n, key, stage) && k < c && |s.requests| == c * n
    requires |s.requests| <= |t.requests| && t.requests[..|s.requests|] == s.requests
    ensures Batch(t, k * n, n, key, stage)
  {
    forall i | k * n <= i < k * n + n ensures t.requests[i] == s.requests[i] {
      assert t.requests[i] == t.requests[..|s.requests|][i];
    }
  }

  lemma {:induction false} HoldBursts(rules: Rules, client: Client, key: Key, n: nat, c: nat)
    requires n > 0 && rules(key).window > 0
    ensures var w := rules(key).window;
      Bursts(Run(rules, Initial(), LateHolds(client, key, n, w, c)), key, n, w, c, 0)
  {
    hide Run, Holds, Bursts, Sound;
    var w := rules(key).window;
    StartsEmpty(rules);
    if c == 0 {
      NoBursts(key, n, w);
    } else {
      var front := LateHolds(client, key, n, w, c - 1);
      HoldBursts(rules, client, key, n, c - 1);
      HoldBurst(rules, Run(rules, Initial(), front), client, key, n, c - 1);
      RunConcat(rules, Initial(), front, Holds(client, key, (c - 1) * n, n) + [Tick(w)]);
      var hold := Holds(client, key, (c - 1) * n, n);
      assert front + (hold + [Tick(w)]) == front + hold + [Tick(w)];
    }
  }

  lemma {:induction false} NoBursts(key: Key, n: nat, w: nat)
    ensures Bursts(Initial(), key, n, w, 0, 0)
  {
  }

  lemma {:induction false} CountBurst(rules: Rules, s: State, key: Key, n: nat, c: nat, j: nat)
    requires Sound(s) && 0 < n <= rules(key).rate && j < c && Bursts(s, key, n, rules(key).window, c, j)
    ensures Bursts(Run(rules, s, Counts(j * n, n)), key, n, rules(key).window, c, j + 1)
  {
    hide Run, Counts, Sound, Bumped;
    var w := rules(key).window;
    assert OneBurst(s, key, n, w, j, j);
    CountMany(rules, s, j * n, n, key, j, j * w);
    var t := Run(rules, s, Counts(j * n, n));
    BumpedShape(s.store, j, n);
    var next := j + 1;
    forall k: nat | k < c ensures OneBurst(t, key, n, w, k, next) {
      assert OneBurst(s, key, n, w, k, j);
      if k != j { Disjoint(k, j, n); }
    }
  }

  lemma {:induction false} Disjoint(k: nat, j: nat, n: nat)
    requires k != j
    ensures k * n + n <= j * n || j * n + n <= k * n
  {
    if k < j { Grows(k + 1, j, n); } else { Grows(j + 1, k, n); }
    assert (k + 1) * n == k * n + n && (j + 1) * n == j * n + n;
  }

  lemma {:induction false} BumpedShape(st: Store, id: nat, n: nat)
    requires id < |st.heap|
    ensures var c := Bumped(st, id, n);
      && |c.heap| == |st.heap| && c.current == st.current && c.bans == st.bans
      && c.heap[id] == st.heap[id].(count := st.heap[id].count + n)
      && forall i | 0 <= i < |st.heap| && i != id :: c.heap[i] == st.heap[i]
  {
  }

  lemma {:induction false} CountBursts(rules: Rules, s: State, key: Key, n: nat, c: nat, j: nat)
    requires Sound(s) && 0 < n <= rules(key).rate && j <= c && Bursts(s, key, n, rules(key).window, c, 0)
    ensures Bursts(Run(rules, s, LateCounts(n, j)), key, n, rules(key).window, c, j)
  {
    hide Run, Counts, Bursts, Sound;
    if j == 0 {
      RunNothing(rules, s);
    } else {
      CountBursts(rules, s, key, n, c, j - 1);
      CountBurst(rules, Run(rules, s, LateCounts(n, j - 1)), key, n, c, j - 1);
      RunConcat(rules, s, LateCounts(n, j - 1), Counts((j - 1) * n, n));
    }
  }

  /** c late bursts, then a burst at their decision and one a window later. */
  function LateBursts(client: Client, key: Key, n: nat, window: nat, c: nat): seq<Action> {
    LateHolds(client, key, n, window, c) + LateCounts(n, c)
    + Visits(client, key, c * n, n) + [Tick(window)] + Visits(client, key, (c + 1) * n, n)
  }

  lemma {:induction false} LateRun(rules: Rules, client: Client, key: Key, c: nat) returns (a: State, b: State)
    requires rules(key).rate > 0 && rules(key).window > 0
    ensures var n, w := rules(key).rate, rules(key).window;
      && Bursts(a, key, n, w, c, c) && Visited(a, b, key, n)
      && Visited(b.(now := b.now + w), Run(rules, Initial(), LateBursts(client, key, n, w, c)), key, n)
  {
    hide Run, Visits, HasCounter, Sound, Bursts;
    var n, w := rules(key).rate, rules(key).window;
    var hold, count := LateHolds(client, key, n, w, c), LateCounts(n, c);
    var visit, last := Visits(client, key, c * n, n), Visits(client, key, (c + 1) * n, n);
    StartsEmpty(rules);
    RunConcat(rules, Initial(), hold, count);
    RunConcat(rules, Initial(), hold + count, visit);
    RunConcat(rules, Initial(), hold + count + visit, [Tick(w)]);
    RunConcat(rules, Initial(), hold + count + visit + [Tick(w)], last);
    HoldBursts(rules, client, key, n, c);
    CountBursts(rules, Run(rules, Initial(), hold), key, n, c, c);
    a := Run(rules, Initial(), hold + count);
    NoneAlive(a, key, n, w, c, c);
    BurstsShape(a, key, n, w, c);
    VisitMany(rules, a, client, key, n);
    b := Run(rules, a, visit);
    Waits(rules, b, w);
    var d := b.(now := b.now + w);
    assert (c + 1) * n == c * n + n;
    SoundIsValid(d);
    Expired(d.store, key, w, d.now);
    VisitMany(rules, d, client, key, n);
  }

  lemma {:induction false} BurstsShape(s: State, key: Key, n: nat, w: nat, c: nat)
    requires Bursts(s, key, n, w, c, c)
    ensures s.store.bans == map[] && |s.requests| == c * n
  {
  }

  lemma {:induction false} WhichBurst(i: nat, n: nat, c: nat) returns (k: nat)
    requires i < c * n
    ensures k < c && k * n <= i < k * n + n
  {
    k := i / n;
    assert i == (i / n) * n + i % n && i % n < n;
    if k >= c { Grows(c, k, n); }
  }

  /** Every request of that run was allowed, in the closed interval and in time for the lag. */
  lemma {:induction false} LateDates(rules: Rules, a: State, b: State, s: State, key: Key, n: nat, c: nat, lag: nat)
    requires n > 0 && rules(key).window > 0 && c == Ceiling(lag, rules(key).window)
    requires Bursts(a, key, n, rules(key).window, c, c) && Visited(a, b, key, n)
    requires Visited(b.(now := b.now + rules(key).window), s, key, n)
    ensures Prompt(rules, s, key, lag)
    ensures |InWindow(rules, s, key, a.now, true)| == Most(lag, rules(key).window) * n
  {
    hide Ceiling, OneBurst;
    var w := rules(key).window;
    CeilingCovers(lag, w);
    assert |s.requests| == Most(lag, w) * n by { Three(c, n); }
    hide Most, Bursts;
    forall i | 0 <= i < |s.requests|
      ensures s.requests[i].key == key && s.requests[i].stage.Allowed?
      ensures var q := s.requests[i].stage;
        && a.now <= q.at <= a.now + w && q.counter < |s.store.heap|
        && q.at < s.store.heap[q.counter].birth + w + lag
    {
      LateDate(rules, a, b, s, key, n, c, lag, i);
    }
    AllIn(s, key, a.now, w, true);
  }

  lemma {:induction false} Three(c: nat, n: nat)
    ensures (2 + c) * n == c * n + n + n
  {
  }

  lemma {:induction false} LateDate(
      rules: Rules, a: State, b: State, s: State, key: Key, n: nat, c: nat, lag: nat, i: nat)
    requires n > 0 && rules(key).window > 0 && c * rules(key).window < lag + rules(key).window && i < |s.requests|
    requires Bursts(a, key, n, rules(key).window, c, c) && Visited(a, b, key, n)
    requires Visited(b.(now := b.now + rules(key).window), s, key, n)
    ensures s.requests[i].key == key && s.requests[i].stage.Allowed?
    ensures var q, w := s.requests[i].stage, rules(key).window;
      && a.now <= q.at <= a.now + w && q.counter < |s.store.heap|
      && q.at < s.store.heap[q.counter].birth + w + lag
  {
    hide OneBurst;
    var w := rules(key).window;
    if i < c * n {
      var k := WhichBurst(i, n, c);
      assert OneBurst(a, key, n, w, k, c);
      BurstRequest(a, key, n, w, k, c, i);
      assert s.requests[i] == b.requests[i] == a.requests[i];
      assert s.store.heap[k] == b.store.heap[k] == a.store.heap[k];
    }
  }

  lemma {:induction false} BurstRequest(s: State, key: Key, n: nat, w: nat, k: nat, c: nat, i: nat)
    requires OneBurst(s, key, n, w, k, c) && k < c && k * n <= i < k * n + n
    ensures i < |s.requests| && s.requests[i].key == key && s.requests[i].stage == Allowed(k, k * w, s.now)
    ensures k < |s.store.heap| && s.store.heap[k].birth == k * w
  {
  }

  /** When the late bursts are decided. */
  function LateTime(lag: nat, window: nat): nat
    requires window > 0
  {
    Ceiling(lag, window) * window
  }

  /** For every rate, window and lag some interval sees the full bound. */
  lemma {:induction false} LagBoundIsAttained(rules: Rules, client: Client, key: Key, lag: nat)
    requires rules(key).rate > 0 && rules(key).window > 0
    ensures var n, w := rules(key).rate, rules(key).window;
      var s := Run(rules, Initial(), LateBursts(client, key, n, w, Ceiling(lag, w)));
      Prompt(rules, s, key, lag) && |InWindow(rules, s, key, LateTime(lag, w), true)| == Most(lag, w) * n
  {
    hide Run, Visited, Prompt, Most;
    var n, w, c := rules(key).rate, rules(key).window, Ceiling(lag, rules(key).window);
    var a, b := LateRun(rules, client, key, c);
    LateDates(rules, a, b, Run(rules, Initial(), LateBursts(client, key, n, w, c)), key, n, c, lag);
  }

  // ------------------------------------------------------------------------------------------
  // The exact bound.

  /** Over all runs whose decisions are at most `lag` late and all closed intervals of one window. */
  ghost predicate DecidesAtMost(rules: Rules, key: Key, lag: nat, bound: nat) {
    forall actions: seq<Action>, from: nat | Prompt(rules, Run(rules, Initial(), actions), key, lag) ::
      |InWindow(rules, Run(rules, Initial(), actions), key, from, true)| <= bound
  }

  lemma {:induction false} NoLag(lag: nat, w: nat)
    requires w > 0
    ensures Ceiling(lag, w) == 0 <==> lag == 0
  {
    hide Ceiling;
    CeilingCovers(lag, w);
    TimesZero(w);
    if lag == 0 && Ceiling(lag, w) > 0 { Grows(1, Ceiling(lag, w), w); }
  }

  lemma {:induction false} TimesZero(x: nat)
    ensures x * 0 == 0 && 0 * x == 0
  {
  }

  /** With a positive window, (2 + lag / window, rounded up) * rate is the least bound there is. */
  lemma {:induction false} DecidesAtMostIff(rules: Rules, key: Key, lag: nat, bound: nat)
    requires rules(key).window > 0
    ensures DecidesAtMost(rules, key, lag, bound) <==> Most(lag, rules(key).window) * rules(key).rate <= bound
  {
    hide Run, Prompt, Most;
    var n, w := rules(key).rate, rules(key).window;
    if Most(lag, w) * n <= bound {
      forall actions: seq<Action>, from: nat | Prompt(rules, Run(rules, Initial(), actions), key, lag)
        ensures |InWindow(rules, Run(rules, Initial(), actions), key, from, true)| <= bound
      {
        EveryRun(rules, actions);
        LagBoundHolds(rules, Run(rules, Initial(), actions), key, from, lag);
      }
    } else {
      TimesZero(Most(lag, w));
      LagBoundIsAttained(rules, "", key, lag);
    }
  }

  /**
   In particular 2 * rate is kept if and only if nothing is allowed at all, or the window is not zero
   and the lag is.
   */
  lemma {:induction false} LimitsDecisionsIff(rules: Rules, key: Key, lag: nat)
    ensures DecidesAtMost(rules, key, lag, 2 * rules(key).rate)
       <==> rules(key).rate == 0 || (rules(key).window > 0 && lag == 0)
  {
    hide Run;
    var n, w := rules(key).rate, rules(key).window;
    if w > 0 {
      DecidesAtMostIff(rules, key, lag, 2 * n);
      hide DecidesAtMost, Ceiling;
      CeilingCovers(lag, w);
      NoLag(lag, w);
      if lag > 0 { Grows(3, Most(lag, w), n); }
    } else if n == 0 {
      forall actions: seq<Action>, from: nat | Prompt(rules, Run(rules, Initial(), actions), key, lag)
        ensures |InWindow(rules, Run(rules, Initial(), actions), key, from, true)| <= 2 * n
      {
        EveryRun(rules, actions);
        RateZero(rules, Run(rules, Initial(), actions), key, from, true);
      }
    } else {
      ZeroWindowIsUnlimited(rules, key, true, lag);
    }
  }
}
