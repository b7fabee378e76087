/**
 Fixed-window request counters and bans, with explicit time.  A request takes four separate steps
 (ban check, counter lookup, increment, ban insertion) that interleave with those of other requests.
 */
module RateLimiter {

  type Client = string

  type Key = string

  datatype Penalty = Block | Challenge | Delay | Log

  datatype Rule = Rule(rate: nat, window: nat, blockDuration: nat, action: Penalty)

  /** A counter object; requests keep a handle to it even after its cache entry has expired. */
  datatype Counter = Counter(key: Key, birth: nat, count: nat)

  datatype Store = Store(heap: seq<Counter>, current: map<Key, nat>, bans: map<Client, nat>) {
    ghost predicate Valid() {
      forall k | k in current :: current[k] < |heap| && heap[current[k]].key == k
    }
  }

  // ------------------------------------------------------------------------------------------
  // The store's operations.

  predicate IsBlocked(st: Store, client: Client, now: nat) {
    client in st.bans && now < st.bans[client]
  }

  predicate HasCounter(st: Store, key: Key, window: nat, now: nat)
    requires st.Valid()
  {
    key in st.current && now < st.heap[st.current[key]].birth + window
  }

  /** Find the live counter of a key, or start a new one. */
  function Lookup(st: Store, key: Key, window: nat, now: nat): (r: (Store, nat))
    requires st.Valid()
    ensures r.0.Valid() && r.1 < |r.0.heap| && r.0.heap[r.1].key == key
  {
    if HasCounter(st, key, window, now) then (st, st.current[key])
    else (st.(heap := st.heap + [Counter(key, now, 0)], current := st.current[key := |st.heap|]), |st.heap|)
  }

  function Increment(st: Store, id: nat): (r: Store)
    requires st.Valid() && id < |st.heap|
    ensures r.Valid()
  {
    var c := st.heap[id];
    st.(heap := st.heap[id := c.(count := c.count + 1)])
  }

  /** Writing over a live ban keeps its expiry time. */
  function BlockIp(st: Store, client: Client, duration: nat, now: nat): (r: Store)
    requires st.Valid()
    ensures r.Valid()
    ensures client in r.bans && (duration > 0 ==> now < r.bans[client])
  {
    if IsBlocked(st, client, now) then st else st.(bans := st.bans[client := now + duration])
  }

  datatype Verdict = Allow | Refuse(action: Penalty) | Banned

  class CcEngine {
    var heap: seq<Counter>
    var current: map<Key, nat>
    var bans: map<Client, nat>

    function View(): Store
      reads this
    {
      Store(heap, current, bans)
    }

    constructor ()
      ensures View() == Store([], map[], map[]) && View().Valid()
    {
      heap, current, bans := [], map[], map[];
    }

    method LookupInPlace(key: Key, window: nat, now: nat) returns (id: nat)
      requires View().Valid()
      modifies this
      ensures (View(), id) == Lookup(old(View()), key, window, now)
    {
      if key in current {
        id := current[key];
        if now < heap[id].birth + window {
          return;
        }
      }
      id := |heap|;
      heap := heap + [Counter(key, now, 0)];
      current := current[key := id];
    }

    method IncrementInPlace(id: nat) returns (count: nat)
      requires View().Valid() && id < |heap|
      modifies this
      ensures View() == Increment(old(View()), id) && count == heap[id].count
    {
      count := heap[id].count + 1;
      heap := heap[id := heap[id].(count := count)];
    }

    method BlockIpInPlace(client: Client, duration: nat, now: nat)
      requires View().Valid()
      modifies this
      ensures View() == BlockIp(old(View()), client, duration, now)
    {
      if client !in bans || bans[client] <= now {
        bans := bans[client := now + duration];
      }
    }

    /**
     One request with nothing interleaved: the four steps in order.  `passed` says that it brings a
     valid challenge cookie, which is looked at only under a challenge rule.
     */
    method Check(client: Client, key: Key, rule: Rule, passed: bool, now: nat) returns (verdict: Verdict)
      requires View().Valid()
      modifies this
      ensures View().Valid()
      ensures verdict == Banned <==> client in old(bans) && now < old(bans[client])
      ensures verdict == Banned ==> View() == old(View())
      ensures verdict != Banned && passed && rule.action == Challenge ==> verdict == Allow && View() == old(View())
      ensures verdict != Banned && !(passed && rule.action == Challenge) ==>
                var (found, id) := Lookup(old(View()), key, rule.window, now);
                var counted := Increment(found, id);
                && (verdict == Allow <==> counted.heap[id].count <= rule.rate)
                && (verdict != Allow ==> verdict == Refuse(rule.action))
                && View() == if verdict == Refuse(Block) then BlockIp(counted, client, rule.blockDuration, now)
                             else counted
    {
      if client in bans && now < bans[client] {
        return Banned;
      }
      if rule.action == Challenge && passed {
        return Allow;
      }
      var id := LookupInPlace(key, rule.window, now);
      var count := IncrementInPlace(id);
      if count <= rule.rate {
        return Allow;
      }
      if rule.action == Block {
        BlockIpInPlace(client, rule.blockDuration, now);
      }
      verdict := Refuse(rule.action);
    }
  }

  // ------------------------------------------------------------------------------------------
  // Interleaved requests.

  datatype Stage =
    | Arrived
    | Cleared
    | Holding(counter: nat, since: nat)
    | Over(counter: nat, since: nat)
    | Allowed(counter: nat, since: nat, at: nat)
    | Refused(counter: nat, since: nat)
    | Turned

  datatype Request = Request(client: Client, key: Key, stage: Stage)

  datatype State = State(now: nat, store: Store, requests: seq<Request>)

  datatype Action =
    | Tick(ticks: nat)
    | Arrive(client: Client, key: Key)
    | CheckBan(request: nat)
    | FindCounter(request: nat)
    | Count(request: nat)
    | Ban(request: nat)

  type Rules = Key -> Rule

  ghost predicate Sound(s: State) {
    && s.store.Valid()
    && forall r | 0 <= r < |s.requests| ::
         s.requests[r].stage.Holding? ==> s.requests[r].stage.counter < |s.store.heap|
  }

  ghost function Advance(s: State, r: nat, stage: Stage): State
    requires r < |s.requests|
  {
    s.(requests := s.requests[r := s.requests[r].(stage := stage)])
  }

  /** One step; an action that is not enabled changes nothing. */
  ghost function Next(rules: Rules, s: State, a: Action): (t: State)
    requires Sound(s)
    ensures Sound(t)
  {
    match a
    case Tick(ticks) => s.(now := s.now + ticks)
    case Arrive(client, key) => s.(requests := s.requests + [Request(client, key, Arrived)])
    case CheckBan(r) =>
      if r < |s.requests| && s.requests[r].stage.Arrived?
      then Advance(s, r, if IsBlocked(s.store, s.requests[r].client, s.now) then Turned else Cleared)
      else s
    case FindCounter(r) =>
      if r < |s.requests| && s.requests[r].stage.Cleared?
      then
        var q := s.requests[r];
        var (store, id) := Lookup(s.store, q.key, rules(q.key).window, s.now);
        Advance(s.(store := store), r, Holding(id, s.now))
      else s
    case Count(r) =>
      if r < |s.requests| && s.requests[r].stage.Holding?
      then
        var q := s.requests[r];
        var (id, since) := (q.stage.counter, q.stage.since);
        var store := Increment(s.store, id);
        Advance(s.(store := store), r,
                if store.heap[id].count <= rules(q.key).rate then Allowed(id, since, s.now)
                else if rules(q.key).action == Block then Over(id, since)
                else Refused(id, since))
      else s
    case Ban(r) =>
      if r < |s.requests| && s.requests[r].stage.Over?
      then
        var q := s.requests[r];
        Advance(s.(store := BlockIp(s.store, q.client, rules(q.key).blockDuration, s.now)), r,
                Refused(q.stage.counter, q.stage.since))
      else s
  }

  function Initial(): (s: State) { State(0, Store([], map[], map[]), []) }

  ghost function Run(rules: Rules, s: State, actions: seq<Action>): (t: State)
    requires Sound(s)
    ensures Sound(t)
    decreases |actions|
  {
    if actions == [] then s
    else Next(rules, Run(rules, s, actions[..|actions| - 1]), actions[|actions| - 1])
  }

  // ------------------------------------------------------------------------------------------
  // Invariants of every run.

  ghost predicate Counted(stage: Stage) {
    stage.Holding? || stage.Over? || stage.Allowed? || stage.Refused?
  }

  /** Counters of one key live one after another, and the current one is the youngest. */
  ghost predicate Separate(rules: Rules, store: Store, now: nat) {
    && (forall i | 0 <= i < |store.heap| ::
          store.heap[i].birth <= now && store.heap[i].key in store.current && i <= store.current[store.heap[i].key])
    && (forall i, j | 0 <= i < j < |store.heap| && store.heap[i].key == store.heap[j].key ::
          store.heap[i].birth + rules(store.heap[i].key).window <= store.heap[j].birth)
  }

  /** A request met its counter during that counter's life, or created it. */
  ghost predicate MetAlive(rules: Rules, s: State, q: Request) {
    Counted(q.stage) ==>
      && q.stage.counter < |s.store.heap|
      && q.stage.since <= s.now
      && (q.stage.Allowed? ==> q.stage.since <= q.stage.at <= s.now)
      && var c := s.store.heap[q.stage.counter];
         c.key == q.key && c.birth <= q.stage.since &&
         (q.stage.since == c.birth || q.stage.since < c.birth + rules(c.key).window)
  }

  ghost function AllowedBy(s: State, id: nat): set<nat> {
    set r: nat | r < |s.requests| && s.requests[r].stage.Allowed? && s.requests[r].stage.counter == id
  }

  function Min(a: nat, b: nat): nat { if a <= b then a else b }

  /** A counter has allowed exactly as many requests as it counted, up to the rate. */
  ghost predicate Exact(rules: Rules, s: State, id: nat)
    requires id < |s.store.heap|
  {
    |AllowedBy(s, id)| == Min(s.store.heap[id].count, rules(s.store.heap[id].key).rate)
  }

  ghost predicate Inv(rules: Rules, s: State) {
    && Sound(s)
    && Separate(rules, s.store, s.now)
    && (forall r | 0 <= r < |s.requests| :: MetAlive(rules, s, s.requests[r]))
    && (forall id: nat | id < |s.store.heap| :: Exact(rules, s, id))
  }

  lemma {:induction false} LookupFacts(rules: Rules, st: Store, key: Key, now: nat)
    requires st.Valid() && Separate(rules, st, now)
    ensures var (st', id) := Lookup(st, key, rules(key).window, now);
            && (now == st'.heap[id].birth || now < st'.heap[id].birth + rules(key).window)
            && st'.heap[id].birth <= now && |st.heap| <= |st'.heap| && st'.heap[..|st.heap|] == st.heap
            && forall i: nat | |st.heap| <= i < |st'.heap| :: st'.heap[i].count == 0
  {
  }

  lemma {:induction false} OlderHaveExpired(rules: Rules, st: Store, key: Key, now: nat, i: nat)
    requires st.Valid() && Separate(rules, st, now) && !HasCounter(st, key, rules(key).window, now)
    requires i < |st.heap| && st.heap[i].key == key
    ensures st.heap[i].birth + rules(key).window <= now
  {
  }

  lemma {:induction false} LookupSeparates(rules: Rules, st: Store, key: Key, now: nat)
    requires st.Valid() && Separate(rules, st, now)
    ensures Separate(rules, Lookup(st, key, rules(key).window, now).0, now)
  {
    if !HasCounter(st, key, rules(key).window, now) {
      var n, st' := |st.heap|, Lookup(st, key, rules(key).window, now).0;
      forall i | 0 <= i < |st'.heap|
        ensures st'.heap[i].birth <= now && st'.heap[i].key in st'.current && i <= st'.current[st'.heap[i].key]
      {
        if i < n { assert st'.heap[i] == st.heap[i]; }
      }
      forall i, j | 0 <= i < j < |st'.heap| && st'.heap[i].key == st'.heap[j].key
        ensures st'.heap[i].birth + rules(st'.heap[i].key).window <= st'.heap[j].birth
      {
        assert st'.heap[i] == st.heap[i];
        if j < n {
          assert st'.heap[j] == st.heap[j];
        } else {
          OlderHaveExpired(rules, st, key, now, i);
        }
      }
    }
  }

  lemma {:induction false} SeparateByBirths(rules: Rules, st: Store, st': Store, now: nat, now': nat)
    requires Separate(rules, st, now) && now <= now' && st'.current == st.current && |st'.heap| == |st.heap|
    requires forall i | 0 <= i < |st.heap| :: st'.heap[i].key == st.heap[i].key && st'.heap[i].birth == st.heap[i].birth
    ensures Separate(rules, st', now')
  {
  }

  /** Replacing a request that was not and is not allowed leaves the sets of allowed requests. */
  lemma {:induction false} AllowedByUnchanged(s: State, t: State, id: nat)
    requires |s.requests| <= |t.requests|
    requires forall r: nat | r < |s.requests| && t.requests[r] != s.requests[r] ::
               !s.requests[r].stage.Allowed? && !t.requests[r].stage.Allowed?
    requires forall r: nat | |s.requests| <= r < |t.requests| :: !t.requests[r].stage.Allowed?
    ensures AllowedBy(t, id) == AllowedBy(s, id)
  {
  }

  lemma {:induction false} FreshCounterUnused(rules: Rules, s: State, id: nat)
    requires forall r | 0 <= r < |s.requests| :: MetAlive(rules, s, s.requests[r])
    requires id >= |s.store.heap|
    ensures AllowedBy(s, id) == {}
  {
  }

  lemma {:induction false} FindKeeps(rules: Rules, s: State, r: nat)
    requires Inv(rules, s) && r < |s.requests| && s.requests[r].stage.Cleared?
    ensures Inv(rules, Next(rules, s, FindCounter(r)))
  {
    var q := s.requests[r];
    var (st, id) := Lookup(s.store, q.key, rules(q.key).window, s.now);
    var t := State(s.now, st, s.requests[r := q.(stage := Holding(id, s.now))]);
    FindIsLookup(rules, s, r);
    hide Next, Lookup, Separate, Exact;
    LookupFacts(rules, s.store, q.key, s.now);
    LookupSeparates(rules, s.store, q.key, s.now);
    FindStaysExact(rules, s, t, r);
    FindMeets(rules, s, t, r);
  }

  lemma {:induction false} FindIsLookup(rules: Rules, s: State, r: nat)
    requires Sound(s) && r < |s.requests| && s.requests[r].stage.Cleared?
    ensures var q := s.requests[r];
      var (st, id) := Lookup(s.store, q.key, rules(q.key).window, s.now);
      Next(rules, s, FindCounter(r)) == State(s.now, st, s.requests[r := q.(stage := Holding(id, s.now))])
  {
    hide Lookup;
  }

  lemma {:induction false} FindMeets(rules: Rules, s: State, t: State, r: nat)
    requires r < |s.requests| && t.now == s.now && |s.store.heap| <= |t.store.heap|
    requires t.store.heap[..|s.store.heap|] == s.store.heap
    requires forall j | 0 <= j < |s.requests| :: MetAlive(rules, s, s.requests[j])
    requires |t.requests| == |s.requests| && t.requests == s.requests[r := t.requests[r]]
    requires MetAlive(rules, t, t.requests[r])
    ensures forall j | 0 <= j < |t.requests| :: MetAlive(rules, t, t.requests[j])
  {
    forall j | 0 <= j < |t.requests| ensures MetAlive(rules, t, t.requests[j]) {
      if j != r {
        var q := s.requests[j];
        assert MetAlive(rules, s, q) && t.requests[j] == q;
        if Counted(q.stage) {
          assert t.store.heap[q.stage.counter] == t.store.heap[..|s.store.heap|][q.stage.counter];
        }
      }
    }
  }

  /** A new counter has allowed nobody, and the others what they had. */
  lemma {:induction false} FindStaysExact(rules: Rules, s: State, t: State, r: nat)
    requires Inv(rules, s) && r < |s.requests| == |t.requests| && t.requests == s.requests[r := t.requests[r]]
    requires !s.requests[r].stage.Allowed? && !t.requests[r].stage.Allowed?
    requires |s.store.heap| <= |t.store.heap| && t.store.heap[..|s.store.heap|] == s.store.heap
    requires forall i: nat | |s.store.heap| <= i < |t.store.heap| :: t.store.heap[i].count == 0
    ensures forall i: nat | i < |t.store.heap| :: Exact(rules, t, i)
  {
    hide Separate, Sound;
    forall i: nat | i < |t.store.heap|
      ensures Exact(rules, t, i)
    {
      AllowedByUnchanged(s, t, i);
      if i < |s.store.heap| {
        assert Exact(rules, s, i);
        assert t.store.heap[i] == t.store.heap[..|s.store.heap|][i];
      } else {
        FreshCounterUnused(rules, s, i);
      }
    }
  }

  lemma {:induction false} AliveByBirths(rules: Rules, s: State, t: State, q: Request)
    requires MetAlive(rules, s, q) && s.now <= t.now && |t.store.heap| == |s.store.heap|
    requires forall i | 0 <= i < |s.store.heap| ::
               t.store.heap[i].key == s.store.heap[i].key && t.store.heap[i].birth == s.store.heap[i].birth
    ensures MetAlive(rules, t, q)
  {
  }

  lemma {:induction false} AllowedByGrows(s: State, t: State, r: nat, id: nat)
    requires r < |s.requests| && !s.requests[r].stage.Allowed?
    requires |t.requests| == |s.requests| && t.requests == s.requests[r := t.requests[r]]
    ensures t.requests[r].stage.Allowed? && t.requests[r].stage.counter == id ==>
              |AllowedBy(t, id)| == |AllowedBy(s, id)| + 1
    ensures !(t.requests[r].stage.Allowed? && t.requests[r].stage.counter == id) ==>
              AllowedBy(t, id) == AllowedBy(s, id)
  {
    if t.requests[r].stage.Allowed? && t.requests[r].stage.counter == id {
      assert AllowedBy(t, id) == AllowedBy(s, id) + {r};
    }
  }

  lemma {:induction false} CountExact(rules: Rules, s: State, r: nat, id: nat)
    requires Inv(rules, s) && r < |s.requests| && s.requests[r].stage.Holding? && id < |s.store.heap|
    ensures Exact(rules, Next(rules, s, Count(r)), id)
  {
    var t := Next(rules, s, Count(r));
    assert MetAlive(rules, s, s.requests[r]) && Exact(rules, s, id);
    hide Inv, MetAlive, Sound, AllowedBy;
    AllowedByGrows(s, t, r, id);
  }

  lemma {:induction false} CountKeeps(rules: Rules, s: State, r: nat)
    requires Inv(rules, s) && r < |s.requests| && s.requests[r].stage.Holding?
    ensures Inv(rules, Next(rules, s, Count(r)))
  {
    var t := Next(rules, s, Count(r));
    SeparateByBirths(rules, s.store, t.store, s.now, t.now);
    forall id: nat | id < |t.store.heap|
      ensures Exact(rules, t, id)
    {
      CountExact(rules, s, r, id);
    }
    hide Separate, Exact, Sound;
    forall j | 0 <= j < |t.requests|
      ensures MetAlive(rules, t, t.requests[j])
    {
      assert MetAlive(rules, s, s.requests[j]);
      AliveByBirths(rules, s, t, s.requests[j]);
    }
  }

  /** Request q may become q' in a step that leaves the counters alone. */
  ghost predicate Moves(q: Request, q': Request) {
    || q' == q
    || (q.client == q'.client && q.key == q'.key && !q.stage.Allowed? && !q'.stage.Allowed? &&
        (Counted(q'.stage) ==>
           Counted(q.stage) && q'.stage.counter == q.stage.counter && q'.stage.since == q.stage.since))
  }

  lemma {:induction false} SameCountersKeep(rules: Rules, s: State, t: State)
    requires Inv(rules, s) && Sound(t) && s.now <= t.now
    requires t.store.heap == s.store.heap && t.store.current == s.store.current
    requires |s.requests| <= |t.requests|
    requires forall r | 0 <= r < |s.requests| :: Moves(s.requests[r], t.requests[r])
    requires forall r | |s.requests| <= r < |t.requests| :: !Counted(t.requests[r].stage)
    ensures Inv(rules, t)
  {
    SeparateByBirths(rules, s.store, t.store, s.now, t.now);
    forall id: nat | id < |t.store.heap|
      ensures Exact(rules, t, id)
    {
      assert Exact(rules, s, id);
      AllowedByUnchanged(s, t, id);
    }
    hide Separate, Exact, Sound;
    forall j | 0 <= j < |t.requests|
      ensures MetAlive(rules, t, t.requests[j])
    {
      if j < |s.requests| {
        assert MetAlive(rules, s, s.requests[j]) && Moves(s.requests[j], t.requests[j]);
      }
    }
  }

  /** The steps that create no counter and count nothing. */
  lemma {:induction false} OthersKeep(rules: Rules, s: State, a: Action)
    requires Inv(rules, s) && (a.Tick? || a.Arrive? || a.CheckBan? || a.Ban?)
    ensures Inv(rules, Next(rules, s, a))
  {
    hide Next, MetAlive, Exact, Separate, Sound;
    OthersMove(rules, s, a);
    SameCountersKeep(rules, s, Next(rules, s, a));
  }

  lemma {:induction false} OthersMove(rules: Rules, s: State, a: Action)
    requires Sound(s) && (a.Tick? || a.Arrive? || a.CheckBan? || a.Ban?)
    ensures var t := Next(rules, s, a);
      && Sound(t) && s.now <= t.now && t.store.heap == s.store.heap && t.store.current == s.store.current
      && |s.requests| <= |t.requests|
      && (forall r | 0 <= r < |s.requests| :: Moves(s.requests[r], t.requests[r]))
      && (forall r | |s.requests| <= r < |t.requests| :: !Counted(t.requests[r].stage))
  {
    hide IsBlocked;
  }

  lemma {:induction false} StepKeeps(rules: Rules, s: State, a: Action)
    requires Inv(rules, s)
    ensures Inv(rules, Next(rules, s, a))
  {
    hide Inv;
    match a
    case FindCounter(r) =>
      if r < |s.requests| && s.requests[r].stage.Cleared? { FindKeeps(rules, s, r); }
    case Count(r) =>
      if r < |s.requests| && s.requests[r].stage.Holding? { CountKeeps(rules, s, r); }
    case _ => OthersKeep(rules, s, a);
  }

  lemma {:induction false} EveryRun(rules: Rules, actions: seq<Action>)
    ensures Inv(rules, Run(rules, Initial(), actions))
    decreases |actions|
  {
    if actions != [] {
      EveryRun(rules, actions[..|actions| - 1]);
      StepKeeps(rules, Run(rules, Initial(), actions[..|actions| - 1]), actions[|actions| - 1]);
    }
  }

  /** No counter lifetime allows more than the rate. */
  lemma {:induction false} LifetimeBound(rules: Rules, actions: seq<Action>, id: nat)
    requires id < |Run(rules, Initial(), actions).store.heap|
    ensures var s := Run(rules, Initial(), actions);
            |AllowedBy(s, id)| == Min(s.store.heap[id].count, rules(s.store.heap[id].key).rate)
  {
    EveryRun(rules, actions);
    assert Exact(rules, Run(rules, Initial(), actions), id);
  }

  // ------------------------------------------------------------------------------------------
  // Bans.

  /** A request that has not passed its ban check yet: it is still to arrive, or waits for the check. */
  ghost predicate Unchecked(s: State, client: Client, r: nat) {
    r < |s.requests| ==> s.requests[r].client == client ==> s.requests[r].stage.Arrived?
  }

  ghost predicate Excluded(s: State, client: Client, r: nat) {
    r < |s.requests| ==> s.requests[r].client == client ==> s.requests[r].stage.Arrived? || s.requests[r].stage.Turned?
  }

  lemma {:induction false} BanStep(rules: Rules, s: State, a: Action, client: Client, until: nat, r: nat)
    requires Sound(s) && client in s.store.bans && s.store.bans[client] == until
    requires Excluded(s, client, r) && Next(rules, s, a).now < until
    ensures var t := Next(rules, s, a);
      client in t.store.bans && t.store.bans[client] == until && Excluded(t, client, r)
  {
  }

  /**
   From the moment a ban is stored until it expires, it keeps its expiry time, and no request of
   that client that had not passed its check by then gets anything but a refusal.
   */
  lemma {:induction false} BanHolds(rules: Rules, s: State, actions: seq<Action>, client: Client, r: nat)
    requires Sound(s) && client in s.store.bans && Unchecked(s, client, r)
    requires Run(rules, s, actions).now < s.store.bans[client]
    ensures var t := Run(rules, s, actions);
            client in t.store.bans && t.store.bans[client] == s.store.bans[client] && Excluded(t, client, r)
  {
    hide Next;
    if actions != [] {
      var front, last := actions[..|actions| - 1], actions[|actions| - 1];
      NowGrows(rules, Run(rules, s, front), last);
      BanHolds(rules, s, front, client, r);
      BanStep(rules, Run(rules, s, front), last, client, s.store.bans[client], r);
    }
  }

  lemma {:induction false} NowGrows(rules: Rules, s: State, a: Action)
    requires Sound(s)
    ensures s.now <= Next(rules, s, a).now
  {
  }

  /** A request that passed its check before the ban is not touched by it. */
  lemma {:induction false} ClearedRequestsIgnoreBans(rules: Rules, s: State, bans: map<Client, nat>, r: nat)
    requires Sound(s) && r < |s.requests| && s.requests[r].stage.Cleared?
    ensures var s' := s.(store := s.store.(bans := bans));
            && Sound(s')
            && Next(rules, Next(rules, s, FindCounter(r)), Count(r)).requests
            == Next(rules, Next(rules, s', FindCounter(r)), Count(r)).requests
  {
    var s' := s.(store := s.store.(bans := bans));
    var t, t' := Next(rules, s, FindCounter(r)), Next(rules, s', FindCounter(r));
    assert t' == t.(store := t.store.(bans := bans));
  }
}
