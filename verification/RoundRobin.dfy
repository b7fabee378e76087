/**
 Weighted round robin: one counter for the whole process, wrapping at 2^64, taken modulo the total
 weight.  A window here is a stretch of consecutive counter values, whoever draws them.
 */
module RoundRobin {
  import opened Decimal

  function Sum(weights: seq<nat>): nat {
    if weights == [] then 0 else Sum(weights[..|weights| - 1]) + weights[|weights| - 1]
  }

  function Before(weights: seq<nat>, i: nat): nat
    requires i <= |weights|
  {
    Sum(weights[..i])
  }

  lemma {:induction false} BeforeStep(weights: seq<nat>, i: nat)
    requires i < |weights|
    ensures Before(weights, i + 1) == Before(weights, i) + weights[i]
  {
    assert weights[..i + 1][..i] == weights[..i];
  }

  lemma {:induction false} BeforeMonotone(weights: seq<nat>, i: nat, j: nat)
    requires i <= j <= |weights|
    ensures Before(weights, i) <= Before(weights, j)
    ensures Before(weights, |weights|) == Sum(weights)
  {
    assert weights[..|weights|] == weights;
    if i < j {
      BeforeMonotone(weights, i, j - 1);
      BeforeStep(weights, j - 1);
    }
  }

  /** Candidate i owns the targets from the weights before it up to its own. */
  ghost predicate Owns(weights: seq<nat>, i: nat, target: nat) {
    i < |weights| && Before(weights, i) <= target < Before(weights, i + 1)
  }

  lemma {:induction false} OneOwner(weights: seq<nat>, i: nat, j: nat, target: nat)
    requires Owns(weights, i, target) && Owns(weights, j, target)
    ensures i == j
  {
    if i < j { BeforeMonotone(weights, i + 1, j); }
    if j < i { BeforeMonotone(weights, j + 1, i); }
  }

  function PickFrom(weights: seq<nat>, target: nat, i: nat): (r: nat)
    requires i < |weights| && Before(weights, i) <= target < Sum(weights)
    ensures Owns(weights, r, target)
    decreases |weights| - i
  {
    BeforeStep(weights, i);
    BeforeMonotone(weights, i, |weights|);
    if target < Before(weights, i + 1) then i
    else PickFrom(weights, target, i + 1)
  }

  /** The candidate chosen at a counter value; with no weight at all, plain rotation. */
  function Choice(weights: seq<nat>, counter: nat): (r: nat)
    requires weights != []
    ensures r < |weights|
    ensures if Sum(weights) > 0 then Owns(weights, r, counter % Sum(weights)) else r == counter % |weights|
  {
    if Sum(weights) == 0 then counter % |weights| else PickFrom(weights, counter % Sum(weights), 0)
  }

  // ------------------------------------------------------------------------------------------
  // The selection.  Sums of weights are u32 and wrap, as in a release build.

  method TotalWeight(weights: seq<nat>) returns (total: nat)
    ensures total == Sum(weights) % U32_LIMIT
  {
    total := 0;
    for i := 0 to |weights|
      invariant total == Before(weights, i) % U32_LIMIT
    {
      BeforeStep(weights, i);
      AddWrapped(Before(weights, i), weights[i]);
      total := (total + weights[i]) % U32_LIMIT;
    }
    BeforeMonotone(weights, 0, |weights|);
  }

  /** The first candidate whose cumulative weight exceeds the target, or the last of all. */
  ghost predicate FirstAbove(weights: seq<nat>, target: nat, index: nat) {
    && index < |weights|
    && (forall j | 0 < j <= index :: Before(weights, j) % U32_LIMIT <= target)
    && (index < |weights| - 1 ==> target < Before(weights, index + 1) % U32_LIMIT)
  }

  method Locate(weights: seq<nat>, target: nat) returns (index: nat)
    requires weights != []
    ensures FirstAbove(weights, target, index)
  {
    var cumulative := 0;
    for i := 0 to |weights|
      invariant cumulative == Before(weights, i) % U32_LIMIT
      invariant forall j | 0 < j <= i :: Before(weights, j) % U32_LIMIT <= target
    {
      BeforeStep(weights, i);
      AddWrapped(Before(weights, i), weights[i]);
      cumulative := (cumulative + weights[i]) % U32_LIMIT;
      if target < cumulative {
        return i;
      }
    }
    return |weights| - 1;
  }

  lemma {:induction false} AddWrapped(a: nat, b: nat)
    ensures (a % U32_LIMIT + b) % U32_LIMIT == (a + b) % U32_LIMIT
  {
  }

  /** While the weights' sum fits u32, the scan finds the owner. */
  lemma {:induction false} FirstAboveOwns(weights: seq<nat>, target: nat, index: nat)
    requires FirstAbove(weights, target, index) && target < Sum(weights) < U32_LIMIT
    ensures Owns(weights, index, target)
  {
    BeforeMonotone(weights, index + 1, |weights|);
    SmallMod(Before(weights, index + 1), U32_LIMIT);
    if index > 0 {
      BeforeMonotone(weights, index, |weights|);
      SmallMod(Before(weights, index), U32_LIMIT);
    }
  }

  /** What the code selects at a counter value. */
  ghost predicate Selected(weights: seq<nat>, counter: nat, index: nat)
    requires weights != []
  {
    var total := Sum(weights) % U32_LIMIT;
    if total == 0 then index == counter % |weights| else FirstAbove(weights, counter % total, index)
  }

  lemma {:induction false} SelectedIsChoice(weights: seq<nat>, counter: nat, index: nat)
    requires weights != [] && Sum(weights) < U32_LIMIT && Selected(weights, counter, index)
    ensures index == Choice(weights, counter)
  {
    hide FirstAbove;
    SmallMod(Sum(weights), U32_LIMIT);
    if Sum(weights) > 0 {
      var target := counter % Sum(weights);
      FirstAboveOwns(weights, target, index);
      OneOwner(weights, index, Choice(weights, counter), target);
    }
  }

  class DynamicBalancer {
    var rrCounter: nat

    constructor ()
      ensures rrCounter == 0
    {
      rrCounter := 0;
    }

    /** `select_round_robin`, with fetch_add wrapping. */
    method SelectRoundRobin(weights: seq<nat>) returns (index: nat)
      requires weights != [] && rrCounter < U64_LIMIT
      modifies this
      ensures Sum(weights) < U32_LIMIT ==> index == Choice(weights, old(rrCounter))
      ensures Selected(weights, old(rrCounter), index)
      ensures rrCounter == (old(rrCounter) + 1) % U64_LIMIT
    {
      hide FirstAbove, Sum, Choice;
      var total := TotalWeight(weights);
      var counter := rrCounter;
      rrCounter := (rrCounter + 1) % U64_LIMIT;
      if total == 0 {
        index := counter % |weights|;
      } else {
        index := Locate(weights, counter % total);
      }
      if Sum(weights) < U32_LIMIT { SelectedIsChoice(weights, counter, index); }
    }
  }

  // ------------------------------------------------------------------------------------------
  // Fairness.

  /** How often candidate i is chosen at n consecutive counter values. */
  function Picks(weights: seq<nat>, start: nat, n: nat, i: nat): nat
    requires weights != []
  {
    if n == 0 then 0
    else Picks(weights, start, n - 1, i) + if Choice(weights, (start + n - 1) % U64_LIMIT) == i then 1 else 0
  }

  function Period(weights: seq<nat>): (r: nat)
    requires weights != []
    ensures r > 0
  {
    if Sum(weights) > 0 then Sum(weights) else |weights|
  }

  function Share(weights: seq<nat>, i: nat): nat
    requires i < |weights|
  {
    if Sum(weights) > 0 then weights[i] else 1
  }

  /** Candidate i's slots in a period are a contiguous block of its share. */
  function Slot(weights: seq<nat>, i: nat): nat
    requires i < |weights|
  {
    if Sum(weights) > 0 then Before(weights, i) else i
  }

  lemma {:induction false} ChoiceBySlot(weights: seq<nat>, k: nat, i: nat)
    requires weights != [] && i < |weights|
    ensures Choice(weights, k) == i
       <==> Slot(weights, i) <= k % Period(weights) < Slot(weights, i) + Share(weights, i)
  {
    if Sum(weights) > 0 {
      BeforeStep(weights, i);
      var t, c := k % Sum(weights), Choice(weights, k);
      if Owns(weights, i, t) { OneOwner(weights, i, c, t); }
    }
  }

  /** Counters without wrap, residue by residue: n picks from 0 fill the block from its start. */
  function Filled(weights: seq<nat>, n: nat, i: nat): nat
    requires i < |weights|
  {
    if n <= Slot(weights, i) then 0
    else if n >= Slot(weights, i) + Share(weights, i) then Share(weights, i)
    else n - Slot(weights, i)
  }

  lemma {:induction false} PicksFromZero(weights: seq<nat>, n: nat, i: nat)
    requires weights != [] && i < |weights| && n <= Period(weights) <= U64_LIMIT
    ensures Picks(weights, 0, n, i) == Filled(weights, n, i)
  {
    hide Choice;
    if n > 0 {
      PicksFromZero(weights, n - 1, i);
      ChoiceBySlot(weights, n - 1, i);
      SmallMod(n - 1, Period(weights));
      SmallMod(n - 1, U64_LIMIT);
    }
  }

  lemma {:induction false} SmallMod(x: nat, m: nat)
    requires x < m
    ensures x % m == x
  {
  }

  lemma {:induction false} SlotsFit(weights: seq<nat>, i: nat)
    requires weights != [] && i < |weights|
    ensures Slot(weights, i) + Share(weights, i) <= Period(weights)
  {
    if Sum(weights) > 0 {
      BeforeStep(weights, i);
      BeforeMonotone(weights, i + 1, |weights|);
    }
  }

  lemma {:induction false} AddPeriod(k: nat, m: nat)
    requires m > 0
    ensures (k + m) % m == k % m
  {
    RemainderIsUnique(k + m, m, k / m + 1, k % m);
  }

  lemma {:induction false} RemainderIsUnique(x: nat, m: nat, q: nat, r: nat)
    requires m > 0 && x == q * m + r && r < m
    ensures x % m == r
  {
    Divided(x, m);
    TwoDivisions(m, q, r, x / m, x % m);
  }

  lemma {:induction false} Divided(x: nat, m: nat)
    requires m > 0
    ensures x == (x / m) * m + x % m && x % m < m && x / m >= 0
  {
  }

  lemma {:induction false} TwoDivisions(m: nat, q: nat, r: nat, p: nat, s: nat)
    requires q * m + r == p * m + s && r < m && s < m
    ensures r == s
  {
    if q < p { AtLeast(p - q, m); }
    if p < q { AtLeast(q - p, m); }
  }

  lemma {:induction false} AtLeast(d: nat, m: nat)
    requires d > 0
    ensures d * m >= m
  {
  }

  /** The counter read by the pick that comes a full period later has the same residue. */
  lemma {:induction false} SameResidue(k: nat, m: nat)
    requires m > 0 && (k + m < U64_LIMIT || U64_LIMIT % m == 0)
    ensures ((k + m) % U64_LIMIT) % m == (k % U64_LIMIT) % m
  {
    if U64_LIMIT % m == 0 {
      ModOfMod(k, m);
      ModOfMod(k + m, m);
    } else {
      SmallMod(k + m, U64_LIMIT);
      SmallMod(k, U64_LIMIT);
    }
    AddPeriod(k, m);
  }

  lemma {:induction false} ModOfMod(k: nat, m: nat)
    requires m > 0 && U64_LIMIT % m == 0
    ensures (k % U64_LIMIT) % m == k % m
    decreases k
  {
    if k < U64_LIMIT {
      SmallMod(k, U64_LIMIT);
    } else {
      ModOfMod(k - U64_LIMIT, m);
      AddPeriod(k - U64_LIMIT, U64_LIMIT);
      AddMultiple(k - U64_LIMIT, m, U64_LIMIT / m);
      assert U64_LIMIT == (U64_LIMIT / m) * m;
    }
  }

  lemma {:induction false} AddMultiple(k: nat, m: nat, q: nat)
    requires m > 0
    ensures (k + q * m) % m == k % m
  {
    if q > 0 {
      AddMultiple(k, m, q - 1);
      AddPeriod(k + (q - 1) * m, m);
      assert k + q * m == k + (q - 1) * m + m;
    }
  }

  lemma {:induction false} PicksFromFront(weights: seq<nat>, start: nat, n: nat, i: nat)
    requires weights != []
    ensures Picks(weights, start, n + 1, i)
         == Picks(weights, start + 1, n, i) + if Choice(weights, start % U64_LIMIT) == i then 1 else 0
  {
    hide Choice;
    if n > 0 { PicksFromFront(weights, start, n - 1, i); }
  }

  /** Sliding the window by one drops a pick and gains the pick a period later. */
  lemma {:induction false} WindowSlides(weights: seq<nat>, start: nat, i: nat)
    requires weights != [] && i < |weights|
    requires start + Period(weights) < U64_LIMIT || U64_LIMIT % Period(weights) == 0
    ensures Picks(weights, start + 1, Period(weights), i) == Picks(weights, start, Period(weights), i)
  {
    hide Choice, Slot, Share;
    var p := Period(weights);
    PicksFromFront(weights, start, p, i);
    SameResidue(start, p);
    ChoiceBySlot(weights, start % U64_LIMIT, i);
    ChoiceBySlot(weights, (start + p) % U64_LIMIT, i);
  }

  /** Exact fairness: a full period of counter values that does not wrap gives every candidate its share. */
  lemma {:induction false} FairWindow(weights: seq<nat>, start: nat, i: nat)
    requires weights != [] && i < |weights| && Period(weights) <= U64_LIMIT
    requires start + Period(weights) <= U64_LIMIT || U64_LIMIT % Period(weights) == 0
    ensures Picks(weights, start, Period(weights), i) == Share(weights, i)
  {
    hide Picks, Choice;
    if start == 0 {
      PicksFromZero(weights, Period(weights), i);
      SlotsFit(weights, i);
    } else {
      FairWindow(weights, start - 1, i);
      WindowSlides(weights, start - 1, i);
    }
  }

  // ------------------------------------------------------------------------------------------
  // Exactly when the wrap of the counter is harmless.

  ghost predicate AlwaysFair(weights: seq<nat>)
    requires weights != []
  {
    forall start: nat, i: nat | start < U64_LIMIT && i < |weights| ::
      Picks(weights, start, Period(weights), i) == Share(weights, i)
  }

  ghost predicate SoleOwner(weights: seq<nat>, i: nat)
    requires weights != []
  {
    i < |weights| && Share(weights, i) == Period(weights)
  }

  lemma {:induction false} SoleOwnerAlways(weights: seq<nat>, owner: nat, k: nat)
    requires weights != [] && SoleOwner(weights, owner)
    ensures Choice(weights, k) == owner
  {
    SlotsFit(weights, owner);
    ChoiceBySlot(weights, k, owner);
  }

  lemma {:induction false} SoleOwnerPicks(weights: seq<nat>, owner: nat, start: nat, n: nat, i: nat)
    requires weights != [] && SoleOwner(weights, owner)
    ensures Picks(weights, start, n, i) == if i == owner then n else 0
  {
    hide Choice, SoleOwner;
    if n > 0 {
      SoleOwnerPicks(weights, owner, start, n - 1, i);
      SoleOwnerAlways(weights, owner, (start + n - 1) % U64_LIMIT);
    }
  }

  lemma {:induction false} SoleOwnerShares(weights: seq<nat>, owner: nat, i: nat)
    requires weights != [] && SoleOwner(weights, owner) && i < |weights| && i != owner
    ensures Share(weights, i) == 0
  {
    hide Choice, SoleOwner, Slot, Share;
    var k := Slot(weights, i);
    SlotsFit(weights, i);
    ChoiceBySlot(weights, k, i);
    SoleOwnerAlways(weights, owner, k);
    if Share(weights, i) > 0 { SmallMod(k, Period(weights)); }
  }

  lemma {:induction false} SplitAtWrap(weights: seq<nat>, s: nat, n: nat, i: nat)
    requires weights != [] && s <= U64_LIMIT && n <= U64_LIMIT
    ensures Picks(weights, U64_LIMIT - s, s + n, i)
         == Picks(weights, U64_LIMIT - s, s, i) + Picks(weights, 0, n, i)
  {
    hide Choice;
    if n > 0 {
      SplitAtWrap(weights, s, n - 1, i);
      AddPeriod(n - 1, U64_LIMIT);
      SmallMod(n - 1, U64_LIMIT);
    }
  }

  lemma {:induction false} MissedPick(weights: seq<nat>, start: nat, n: nat, i: nat, j: nat)
    requires weights != []
    ensures Picks(weights, start, n, i) <= n
    ensures j < n && Choice(weights, (start + j) % U64_LIMIT) != i ==> Picks(weights, start, n, i) < n
  {
    hide Choice;
    if n > 0 {
      MissedPick(weights, start, n - 1, i, j);
      var counter := (start + n - 1) % U64_LIMIT;
      if j == n - 1 { assert (start + j) % U64_LIMIT == counter; }
    }
  }

  /** The window whose first part is as long as the last candidate's share cheats that candidate. */
  lemma {:induction false} WrapIsUnfair(weights: seq<nat>)
    requires weights != [] && Period(weights) <= U64_LIMIT && U64_LIMIT % Period(weights) != 0
    requires forall i: nat :: !SoleOwner(weights, i)
    ensures !AlwaysFair(weights)
  {
    hide Choice, Slot, Share, Picks;
    var p := Period(weights);
    var last := Choice(weights, p - 1);
    var s := Share(weights, last);
    ChoiceBySlot(weights, p - 1, last);
    SmallMod(p - 1, p);
    SlotsFit(weights, last);
    assert !SoleOwner(weights, last);
    SplitAtWrap(weights, s, p - s, last);
    PicksFromZero(weights, p - s, last);
    var r := U64_LIMIT % p;
    var e := if r < s then r else s;
    Divided(U64_LIMIT, p);
    RemainderIsUnique(U64_LIMIT - e, p, U64_LIMIT / p, r - e);
    ChoiceBySlot(weights, U64_LIMIT - e, last);
    SmallMod(U64_LIMIT - e, U64_LIMIT);
    MissedPick(weights, U64_LIMIT - s, s, last, s - e);
    assert Picks(weights, U64_LIMIT - s, p, last) < s;
  }

  /**
   Every window of consecutive counter values is fair exactly when the period divides 2^64 or one
   candidate takes every pick.
   */
  lemma {:induction false} AlwaysFairIff(weights: seq<nat>)
    requires weights != [] && Period(weights) <= U64_LIMIT
    ensures AlwaysFair(weights)
       <==> U64_LIMIT % Period(weights) == 0 || exists i: nat :: SoleOwner(weights, i)
  {
    hide Choice, Slot, Share, Picks, Period;
    if U64_LIMIT % Period(weights) == 0 {
      forall start: nat, i: nat | start < U64_LIMIT && i < |weights|
        ensures Picks(weights, start, Period(weights), i) == Share(weights, i)
      {
        FairWindow(weights, start, i);
      }
    } else if owner: nat :| SoleOwner(weights, owner) {
      forall start: nat, i: nat | start < U64_LIMIT && i < |weights|
        ensures Picks(weights, start, Period(weights), i) == Share(weights, i)
      {
        SoleOwnerPicks(weights, owner, start, Period(weights), i);
        if i != owner { SoleOwnerShares(weights, owner, i); }
      }
    } else {
      WrapIsUnfair(weights);
    }
  }

  /** Three origins of weight 1: the picks around the wrap of the counter are not one each. */
  lemma {:induction false} ThreeEqualOriginsAtTheWrap()
    ensures !AlwaysFair([1, 1, 1])
  {
    var weights: seq<nat> := [1, 1, 1];
    for i := 0 to 3
      invariant Before(weights, i) == i
    {
      BeforeStep(weights, i);
    }
    BeforeMonotone(weights, 0, 3);
    AlwaysFairIff(weights);
  }
}
