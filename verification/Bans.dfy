/**
 How long a ban lasts: the periods during which a client is banned, told from the run's own refusals,
 decide every ban check.
 */
module Bans {
  import opened RateLimiter

  /** From the refusal that started it up to, and without, its end. */
  datatype Period = Period(from: nat, until: nat)

  ghost predicate Covered(ps: seq<Period>, at: nat) {
    exists i | 0 <= i < |ps| :: ps[i].from <= at < ps[i].until
  }

  /** The step refuses a request of this client under a blocking rule. */
  ghost predicate Blocks(s: State, a: Action, client: Client) {
    && a.Ban? && a.request < |s.requests| && s.requests[a.request].stage.Over?
    && s.requests[a.request].client == client
  }

  /** A blocking refusal starts a period, as long as its rule says, unless one is still on. */
  ghost function Periods(rules: Rules, actions: seq<Action>, client: Client): seq<Period> {
    if actions == [] then []
    else
      var front, a := actions[..|actions| - 1], actions[|actions| - 1];
      var s, earlier := Run(rules, Initial(), front), Periods(rules, front, client);
      if Blocks(s, a, client) && !Covered(earlier, s.now)
      then earlier + [Period(s.now, s.now + rules(s.requests[a.request].key).blockDuration)]
      else earlier
  }

  /** The stored expiry is the end of the last period; every earlier one is over. */
  ghost predicate Kept(st: Store, now: nat, ps: seq<Period>, client: Client) {
    && (client in st.bans <==> ps != [])
    && (ps != [] ==> st.bans[client] == ps[|ps| - 1].until && ps[|ps| - 1].from <= now)
    && (forall i, j | 0 <= i < j < |ps| :: ps[i].until <= ps[j].from)
  }

  lemma {:induction false} KeptDecides(st: Store, now: nat, ps: seq<Period>, client: Client)
    requires Kept(st, now, ps, client)
    ensures IsBlocked(st, client, now) <==> Covered(ps, now)
  {
    if ps != [] && now < ps[|ps| - 1].until {
      assert ps[|ps| - 1].from <= now < ps[|ps| - 1].until;
    }
    if i :| 0 <= i < |ps| && ps[i].from <= now < ps[i].until {
      assert i == |ps| - 1;
    }
  }

  lemma {:induction false} StepKeepsPeriods(rules: Rules, s: State, a: Action, ps: seq<Period>, client: Client)
    requires Sound(s) && Kept(s.store, s.now, ps, client)
    ensures
      var next := if Blocks(s, a, client) && !Covered(ps, s.now)
                  then ps + [Period(s.now, s.now + rules(s.requests[a.request].key).blockDuration)] else ps;
      Kept(Next(rules, s, a).store, Next(rules, s, a).now, next, client)
  {
    hide Covered;
    KeptDecides(s.store, s.now, ps, client);
    if Blocks(s, a, client) && !Covered(ps, s.now) && ps != [] {
      forall i | 0 <= i < |ps| ensures ps[i].until <= s.now {
        if i < |ps| - 1 { assert ps[i].until <= ps[|ps| - 1].from; }
      }
    }
  }

  lemma {:induction false} EveryRunKeepsPeriods(rules: Rules, actions: seq<Action>, client: Client)
    ensures var s := Run(rules, Initial(), actions); Kept(s.store, s.now, Periods(rules, actions, client), client)
  {
    hide Next, Kept, Covered, Blocks;
    if actions == [] {
      NoBansAtFirst(client);
    } else {
      var front, a := actions[..|actions| - 1], actions[|actions| - 1];
      EveryRunKeepsPeriods(rules, front, client);
      StepKeepsPeriods(rules, Run(rules, Initial(), front), a, Periods(rules, front, client), client);
    }
  }

  lemma {:induction false} NoBansAtFirst(client: Client)
    ensures Kept(Initial().store, 0, [], client)
  {
  }

  /**
   In every run, however the steps interleave: a request's ban check turns it away if and only if it falls
   in one of its client's periods, and the periods do not overlap.
   */
  lemma {:induction false} TurnedAwayIff(rules: Rules, actions: seq<Action>, r: nat)
    requires var s := Run(rules, Initial(), actions); r < |s.requests| && s.requests[r].stage.Arrived?
    ensures
      var s := Run(rules, Initial(), actions);
      var ps := Periods(rules, actions, s.requests[r].client);
      && (Next(rules, s, CheckBan(r)).requests[r].stage.Turned? <==> Covered(ps, s.now))
      && (forall i, j | 0 <= i < j < |ps| :: ps[i].until <= ps[j].from)
  {
    hide Run, Periods, Covered;
    var s := Run(rules, Initial(), actions);
    var client := s.requests[r].client;
    EveryRunKeepsPeriods(rules, actions, client);
    KeptDecides(s.store, s.now, Periods(rules, actions, client), client);
  }

  /** No blocking refusal of the client happens from this time on. */
  ghost predicate Spares(rules: Rules, s: State, actions: seq<Action>, client: Client, until: nat)
    requires Sound(s)
  {
    forall k | 0 <= k < |actions| ::
      var t := Run(rules, s, actions[..k]); Blocks(t, actions[k], client) ==> t.now < until
  }

  lemma {:induction false} BanStays(rules: Rules, s: State, actions: seq<Action>, client: Client, until: nat)
    requires Sound(s) && client in s.store.bans && s.store.bans[client] == until
    requires Spares(rules, s, actions, client, until)
    ensures var t := Run(rules, s, actions).store; client in t.bans && t.bans[client] == until
  {
    hide Next, Blocks;
    if actions != [] {
      var n := |actions| - 1;
      var front := actions[..n];
      forall k | 0 <= k < |front|
        ensures var t := Run(rules, s, front[..k]); Blocks(t, front[k], client) ==> t.now < until
      {
        assert front[..k] == actions[..k];
      }
      BanStays(rules, s, front, client, until);
      assert actions[..n] == front;
      BanStaysOnce(rules, Run(rules, s, front), actions[n], client, until);
    }
  }

  lemma {:induction false} BanStaysOnce(rules: Rules, s: State, a: Action, client: Client, until: nat)
    requires Sound(s) && client in s.store.bans && s.store.bans[client] == until
    requires Blocks(s, a, client) ==> s.now < until
    ensures var t := Next(rules, s, a).store; client in t.bans && t.bans[client] == until
  {
  }

  /**
   A refusal that starts a ban at time t under a duration of d turns the client away at every later check
   before t + d and at none from t + d on, unless a later refusal bans it anew.
   */
  lemma {:induction false} BanLastsExactly(rules: Rules, before: seq<Action>, r: nat, after: seq<Action>, q: nat)
    requires var s := Run(rules, Initial(), before);
      && r < |s.requests| && s.requests[r].stage.Over?
      && !Covered(Periods(rules, before, s.requests[r].client), s.now)
    requires
      var s := Run(rules, Initial(), before);
      var banned, client := Next(rules, s, Ban(r)), s.requests[r].client;
      var t := Run(rules, banned, after);
      && Spares(rules, banned, after, client, s.now + rules(s.requests[r].key).blockDuration)
      && q < |t.requests| && t.requests[q].stage.Arrived? && t.requests[q].client == client
    ensures
      var s := Run(rules, Initial(), before);
      var t := Run(rules, Next(rules, s, Ban(r)), after);
      && (Next(rules, t, CheckBan(q)).requests[q].stage.Turned?
          <==> t.now < s.now + rules(s.requests[r].key).blockDuration)
  {
    hide Run, Periods, Covered, Spares;
    var s := Run(rules, Initial(), before);
    var client := s.requests[r].client;
    EveryRunKeepsPeriods(rules, before, client);
    KeptDecides(s.store, s.now, Periods(rules, before, client), client);
    var until := s.now + rules(s.requests[r].key).blockDuration;
    BanStays(rules, Next(rules, s, Ban(r)), after, client, until);
  }

  /**
   In every run a request that counts is allowed if and only if its counter has allowed fewer than the
   rate so far; otherwise it goes on to ban its client if and only if its rule blocks.
   */
  lemma {:induction false} CountOutcome(rules: Rules, actions: seq<Action>, r: nat)
    requires var s := Run(rules, Initial(), actions); r < |s.requests| && s.requests[r].stage.Holding?
    ensures
      var s := Run(rules, Initial(), actions);
      var q := s.requests[r];
      var id, since, rule := q.stage.counter, q.stage.since, rules(q.key);
      Next(rules, s, Count(r)).requests[r].stage
      == if |AllowedBy(s, id)| < rule.rate then Allowed(id, since, s.now)
         else if rule.action == Block then Over(id, since) else Refused(id, since)
  {
    hide Run;
    EveryRun(rules, actions);
    var s := Run(rules, Initial(), actions);
    var id: nat := s.requests[r].stage.counter;
    assert MetAlive(rules, s, s.requests[r]);
    assert Exact(rules, s, id);
  }
}
