/**
 Weighted round robin as one site sees it: the counter is shared by every site of the process, so a
 site's own picks are at the counter values that the others leave it.
 */
module SharedCounter {
  import opened Decimal
  import opened RoundRobin

  // ------------------------------------------------------------------------------------------
  // Sums along a stride.

  /** f at `start`, `start + stride` and so on, n times. */
  ghost function Total(f: nat -> nat, start: nat, stride: nat, n: nat): nat {
    if n == 0 then 0 else Total(f, start, stride, n - 1) + f(start + stride * (n - 1))
  }

  ghost predicate Periodic(f: nat -> nat, p: nat) {
    forall k: nat :: f(k + p) == f(k)
  }

  lemma {:induction false} PeriodicMany(f: nat -> nat, p: nat, k: nat, q: nat)
    requires Periodic(f, p)
    ensures f(k + p * q) == f(k)
  {
    if q > 0 {
      PeriodicMany(f, p, k, q - 1);
      assert k + p * q == (k + p * (q - 1)) + p;
    }
  }

  lemma {:induction false} TotalFromFront(f: nat -> nat, start: nat, stride: nat, n: nat)
    ensures Total(f, start, stride, n + 1) == f(start) + Total(f, start + stride, stride, n)
  {
    if n == 0 {
      assert stride * 0 == 0;
    } else {
      TotalFromFront(f, start, stride, n - 1);
      assert start + stride * n == start + stride + stride * (n - 1);
    }
  }

  /** A sum of n steps is the same from the next step on, when n steps make whole periods. */
  lemma {:induction false} TotalSlides(f: nat -> nat, p: nat, start: nat, stride: nat, n: nat, q: nat)
    requires Periodic(f, p) && stride * n == p * q
    ensures Total(f, start + stride, stride, n) == Total(f, start, stride, n)
  {
    TotalFromFront(f, start, stride, n);
    PeriodicMany(f, p, start, q);
  }

  ghost function Along(f: nat -> nat, stride: nat, n: nat): nat -> nat { k => Total(f, k, stride, n) }

  lemma {:induction false} OneMoreStep(f: nat -> nat, start: nat, a: nat, m: nat, b: nat, n: nat)
    requires n > 0
    ensures Total(Along(f, b, n), start, a, m)
         == Total(Along(f, b, n - 1), start, a, m) + Total(f, start + b * (n - 1), a, m)
  {
    if m > 0 {
      OneMoreStep(f, start, a, m - 1, b, n);
      assert start + a * (m - 1) + b * (n - 1) == start + b * (n - 1) + a * (m - 1);
    }
  }

  lemma {:induction false} TotalOfNothing(f: nat -> nat, start: nat, a: nat, m: nat, b: nat)
    ensures Total(Along(f, b, 0), start, a, m) == 0
  {
    if m > 0 { TotalOfNothing(f, start, a, m - 1, b); }
  }

  /** The order of summation does not matter. */
  lemma {:induction false} SwapSums(f: nat -> nat, start: nat, a: nat, m: nat, b: nat, n: nat)
    ensures Total(Along(f, b, n), start, a, m) == Total(Along(f, a, m), start, b, n)
  {
    if n == 0 {
      TotalOfNothing(f, start, a, m, b);
    } else {
      SwapSums(f, start, a, m, b, n - 1);
      OneMoreStep(f, start, a, m, b, n);
    }
  }

  lemma {:induction false} ConstantTotal(f: nat -> nat, p: nat, start: nat, stride: nat, n: nat, q: nat)
    requires Periodic(f, p) && stride == p * q
    ensures Total(f, start, stride, n) == n * f(start)
  {
    if n > 0 {
      ConstantTotal(f, p, start, stride, n - 1, q);
      PeriodicMany(f, p, start, q * (n - 1));
      assert stride * (n - 1) == p * (q * (n - 1)) by { Regroup(p, q, n - 1); }
      assert n * f(start) == (n - 1) * f(start) + f(start);
    }
  }

  lemma {:induction false} Regroup(a: nat, b: nat, c: nat)
    ensures a * b * c == a * (b * c)
  {
  }

  // ------------------------------------------------------------------------------------------
  // The greatest common divisor.

  function Gcd(a: nat, b: nat): (g: nat)
    requires a > 0
    ensures g > 0
    decreases b
  {
    if b == 0 then a else Gcd(b, a % b)
  }

  lemma {:induction false} GcdDivides(a: nat, b: nat) returns (p: nat, q: nat)
    requires a > 0
    ensures a == Gcd(a, b) * p && b == Gcd(a, b) * q
    decreases b
  {
    if b == 0 {
      p, q := 1, 0;
    } else {
      var g := Gcd(b, a % b);
      var x, y := GcdDivides(b, a % b);
      p, q := x * (a / b) + y, x;
      Divided(a, b);
      Distribute(g, x, a / b, y);
    }
  }

  /** And every common divisor divides it. */
  lemma {:induction false} GcdIsGreatest(a: nat, b: nat, d: nat)
    requires a > 0 && d > 0 && a % d == 0 && b % d == 0
    ensures Gcd(a, b) % d == 0
    decreases b
  {
    if b > 0 {
      Divided(a, b);
      Divided(b, d);
      Regroup(a / b, b / d, d);
      AddMultiple(a % b, d, a / b * (b / d));
      GcdIsGreatest(b, a % b, d);
    }
  }

  lemma {:induction false} Distribute(g: nat, x: nat, d: nat, y: nat)
    ensures d * (g * x) + g * y == g * (x * d + y)
  {
  }

  lemma {:induction false} PeriodicByGcd(f: nat -> nat, a: nat, b: nat)
    requires a > 0 && Periodic(f, a) && Periodic(f, b)
    ensures Periodic(f, Gcd(a, b))
    decreases b
  {
    if b > 0 {
      forall k: nat ensures f(k + a % b) == f(k) {
        PeriodicMany(f, b, k + a % b, a / b);
        Divided(a, b);
        assert k + a % b + b * (a / b) == k + a;
      }
      PeriodicByGcd(f, b, a % b);
    }
  }

  /** A stride visits the same places as the divisor it shares with the period, that many times. */
  lemma {:induction false} StrideIsDivisor(f: nat -> nat, period: nat, stride: nat, start: nat) returns (m: nat)
    requires period > 0 && stride > 0 && Periodic(f, period)
    ensures var g := Gcd(stride, period);
            period == g * m && Total(f, start, stride, period) == g * Total(f, start, g, m)
  {
    hide Total, Gcd;
    var g := Gcd(stride, period);
    var q;
    q, m := GcdDivides(stride, period);
    var wide, narrow := Along(f, stride, period), Along(f, g, m);
    hide Periodic;
    AlongSlides(f, period, stride, period, stride);
    AlongMoves(f, period, stride, period);
    PeriodicByGcd(wide, stride, period);
    AlongSlides(f, period, g, m, 1);
    ConstantTotal(wide, g, start, g, m, 1);
    ConstantTotal(narrow, g, start, stride, period, q);
    SwapSums(f, start, g, m, stride, period);
    Cancel(m, g, wide(start), narrow(start));
  }

  lemma {:induction false} AlongSlides(f: nat -> nat, p: nat, stride: nat, n: nat, q: nat)
    requires Periodic(f, p) && stride * n == p * q
    ensures Periodic(Along(f, stride, n), stride)
  {
    hide Total;
    var h := Along(f, stride, n);
    forall k: nat ensures h(k + stride) == h(k) { TotalSlides(f, p, k, stride, n, q); }
  }

  lemma {:induction false} AlongMoves(f: nat -> nat, p: nat, stride: nat, n: nat)
    requires Periodic(f, p)
    ensures Periodic(Along(f, stride, n), p)
  {
    hide Total;
    var h := Along(f, stride, n);
    forall k: nat ensures h(k + p) == h(k) { TotalMoves(f, p, k, stride, n); }
  }

  lemma {:induction false} TotalMoves(f: nat -> nat, p: nat, start: nat, stride: nat, n: nat)
    requires Periodic(f, p)
    ensures Total(f, start + p, stride, n) == Total(f, start, stride, n)
  {
    hide Periodic;
    if n > 0 {
      TotalMoves(f, p, start, stride, n - 1);
      var k := start + stride * (n - 1);
      PeriodicMany(f, p, k, 1);
      assert start + p + stride * (n - 1) == k + p * 1;
    }
  }

  lemma {:induction false} Cancel(m: nat, g: nat, x: nat, y: nat)
    requires m > 0 && m * x == g * m * y
    ensures x == g * y
  {
    assert m * x == m * (g * y);
  }

  // ------------------------------------------------------------------------------------------
  // One caller among others.

  /** How often candidate i is chosen by a caller that draws every `stride`-th counter value. */
  function OwnPicks(weights: seq<nat>, start: nat, stride: nat, n: nat, i: nat): nat
    requires weights != []
  {
    if n == 0 then 0
    else
      OwnPicks(weights, start, stride, n - 1, i)
      + if Choice(weights, (start + stride * (n - 1)) % U64_LIMIT) == i then 1 else 0
  }

  ghost function Chosen(weights: seq<nat>, i: nat): nat -> nat
    requires weights != []
  {
    k => if Choice(weights, k) == i then 1 else 0
  }

  lemma {:induction false} ChosenAt(weights: seq<nat>, i: nat, k: nat)
    requires weights != []
    ensures Chosen(weights, i)(k) == if Choice(weights, k) == i then 1 else 0
  {
  }

  lemma {:induction false} Stays(start: nat, stride: nat, n: nat)
    requires n > 0 && stride > 0 && start + stride * n <= U64_LIMIT
    ensures start + stride * (n - 1) <= U64_LIMIT
    ensures (start + stride * (n - 1)) % U64_LIMIT == start + stride * (n - 1)
  {
    assert stride * n == stride * (n - 1) + stride;
    SmallMod(start + stride * (n - 1), U64_LIMIT);
  }

  lemma {:induction false} ChosenPeriodic(weights: seq<nat>, i: nat)
    requires weights != [] && i < |weights|
    ensures Periodic(Chosen(weights, i), Period(weights))
  {
    hide Choice, Slot, Share, Period;
    var f, p := Chosen(weights, i), Period(weights);
    forall k: nat ensures f(k + p) == f(k) {
      AddPeriod(k, p);
      ChoiceBySlot(weights, k, i);
      ChoiceBySlot(weights, k + p, i);
    }
  }

  lemma {:induction false} OwnPicksAreTotal(weights: seq<nat>, start: nat, stride: nat, n: nat, i: nat)
    requires weights != [] && start + stride * n <= U64_LIMIT && stride > 0
    ensures OwnPicks(weights, start, stride, n, i) == Total(Chosen(weights, i), start, stride, n)
  {
    hide Choice, Chosen;
    if n > 0 {
      Stays(start, stride, n);
      OwnPicksAreTotal(weights, start, stride, n - 1, i);
      ChosenAt(weights, i, start + stride * (n - 1));
    }
  }

  /** With its stride shared by no one, a period of one caller's picks is a period of the counter's. */
  lemma {:induction false} ConsecutiveIsStrideOne(weights: seq<nat>, start: nat, n: nat, i: nat)
    requires weights != []
    ensures OwnPicks(weights, start, 1, n, i) == Picks(weights, start, n, i)
  {
    hide Choice;
    if n > 0 { ConsecutiveIsStrideOne(weights, start, n - 1, i); }
  }

  ghost predicate SharesDivisible(weights: seq<nat>, g: nat)
    requires g > 0
  {
    forall i | 0 <= i < |weights| :: Share(weights, i) % g == 0
  }

  ghost predicate FairToCaller(weights: seq<nat>, stride: nat)
    requires weights != []
  {
    forall start: nat, i: nat | i < |weights| && start + stride * Period(weights) <= U64_LIMIT ::
      OwnPicks(weights, start, stride, Period(weights), i) == Share(weights, i)
  }

  lemma {:induction false} SlotsDivisible(weights: seq<nat>, g: nat, i: nat)
    requires weights != [] && i < |weights| && g > 0 && SharesDivisible(weights, g)
    ensures Slot(weights, i) % g == 0 && (Slot(weights, i) + Share(weights, i)) % g == 0
    decreases i
  {
    SlotStarts(weights, g, i);
    assert Share(weights, i) % g == 0;
    SumDivisible(Slot(weights, i), Share(weights, i), g);
  }

  lemma {:induction false} SlotStarts(weights: seq<nat>, g: nat, i: nat)
    requires weights != [] && i < |weights| && g > 0 && SharesDivisible(weights, g)
    ensures Slot(weights, i) % g == 0
    decreases i
  {
    if Sum(weights) == 0 {
      assert Share(weights, 0) == 1;
      assert g == 1;
    } else if i > 0 {
      SlotStarts(weights, g, i - 1);
      BeforeStep(weights, i - 1);
      assert Share(weights, i - 1) % g == 0;
      SumDivisible(Slot(weights, i - 1), Share(weights, i - 1), g);
    } else {
      assert weights[..0] == [];
    }
  }

  lemma {:induction false} SumDivisible(a: nat, b: nat, g: nat)
    requires g > 0 && a % g == 0 && b % g == 0
    ensures (a + b) % g == 0
  {
    Divided(b, g);
    AddMultiple(a, g, b / g);
  }

  /** The start of the cell of g counter values that k is in. */
  function Cell(k: nat, g: nat): nat
    requires g > 0
  {
    k - k % g
  }

  /** When every share is a multiple of g, the choice is the same within a cell of g counter values. */
  lemma {:induction false} CellsAreUniform(weights: seq<nat>, g: nat, m: nat, k: nat, i: nat)
    requires weights != [] && i < |weights| && g > 0 && Period(weights) == g * m && SharesDivisible(weights, g)
    ensures Chosen(weights, i)(Cell(k, g)) == Chosen(weights, i)(k)
  {
    hide Choice, Slot, Share, Period, Chosen, SharesDivisible;
    SlotsDivisible(weights, g, i);
    var cell := Cell(k, g);
    ChoiceBySlot(weights, k, i);
    ChoiceBySlot(weights, cell, i);
    ChosenAt(weights, i, k);
    ChosenAt(weights, i, cell);
    InCell(k, g, m, Period(weights), Slot(weights, i), Slot(weights, i) + Share(weights, i));
  }

  lemma {:induction false} InCell(k: nat, g: nat, m: nat, p: nat, low: nat, high: nat)
    requires g > 0 && p > 0 && p == g * m && low % g == 0 && high % g == 0
    ensures low <= Cell(k, g) % p < high <==> low <= k % p < high
  {
    CellStart(k, g, m);
    Aligned(k % p, low, g);
    Aligned(k % p, high, g);
  }

  /** The cell's start, taken modulo the period, is the start of the residue's cell. */
  lemma {:induction false} CellStart(k: nat, g: nat, m: nat)
    requires g > 0 && m > 0
    ensures Cell(k, g) % (g * m) == Cell(k % (g * m), g)
  {
    var p := g * m;
    Divided(k, p);
    var q, r := k / p, k % p;
    assert k == r + (q * m) * g by { Regroup(q, m, g); assert g * m == m * g; }
    AddMultiple(r, g, q * m);
    Divided(r, g);
    RemainderIsUnique(k - k % g, p, q, r - r % g);
  }

  lemma {:induction false} Aligned(r: nat, bound: nat, g: nat)
    requires g > 0 && bound % g == 0
    ensures Cell(r, g) >= bound <==> r >= bound
  {
    Divided(r, g);
    Divided(bound, g);
    if r >= bound { AtMost(bound / g, r / g, g, r % g); }
  }

  lemma {:induction false} AtMost(a: nat, b: nat, g: nat, r: nat)
    requires a * g <= b * g + r && r < g
    ensures a * g <= b * g
  {
    if a > b { AtLeast(a - b, g); }
  }

  lemma {:induction false} SameCell(start: nat, g: nat, q: nat)
    requires g > 0
    ensures Cell(start + g * q, g) == Cell(start, g) + g * q
  {
    AddMultiple(start, g, q);
    assert q * g == g * q;
  }

  /** Then a sum along the stride g does not depend on where in the cell it starts. */
  lemma {:induction false} CellTotal(weights: seq<nat>, g: nat, m: nat, start: nat, n: nat, i: nat)
    requires weights != [] && i < |weights| && g > 0 && Period(weights) == g * m && SharesDivisible(weights, g)
    ensures Total(Chosen(weights, i), Cell(start, g), g, n) == Total(Chosen(weights, i), start, g, n)
  {
    hide Chosen, Slot, Share, Period, SharesDivisible, Cell;
    if n > 0 {
      CellTotal(weights, g, m, start, n - 1, i);
      var k := start + g * (n - 1);
      SameCell(start, g, n - 1);
      CellsAreUniform(weights, g, m, k, i);
    }
  }

  lemma {:induction false} SameInEveryCell(weights: seq<nat>, g: nat, m: nat, start: nat, i: nat)
    requires weights != [] && i < |weights| && g > 0 && Period(weights) == g * m && SharesDivisible(weights, g)
    ensures Total(Chosen(weights, i), start, g, m) == Total(Chosen(weights, i), 0, g, m)
  {
    hide Total, Chosen, Period, SharesDivisible, Periodic;
    var f := Chosen(weights, i);
    var h := Along(f, g, m);
    assert Periodic(h, g) by { AlongPeriodic(weights, g, m, i); }
    CellTotal(weights, g, m, start, m, i);
    Divided(start, g);
    PeriodicMany(h, g, 0, start / g);
    assert 0 + g * (start / g) == Cell(start, g);
  }

  lemma {:induction false} AlongPeriodic(weights: seq<nat>, g: nat, m: nat, i: nat)
    requires weights != [] && i < |weights| && Period(weights) == g * m
    ensures Periodic(Along(Chosen(weights, i), g, m), g)
  {
    hide Total, Chosen, Period;
    var h := Along(Chosen(weights, i), g, m);
    assert Periodic(Chosen(weights, i), g * m) by { ChosenPeriodic(weights, i); }
    forall k: nat ensures h(k + g) == h(k) {
      hide Periodic;
      TotalSlides(Chosen(weights, i), g * m, k, g, m, 1);
    }
  }

  /** All of a period, by cells: the sum along the stride g is a g-th of the share. */
  lemma {:induction false} CellShare(weights: seq<nat>, g: nat, m: nat, start: nat, i: nat)
    requires weights != [] && i < |weights| && g > 0 && Period(weights) == g * m && SharesDivisible(weights, g)
    requires Period(weights) <= U64_LIMIT
    ensures g * Total(Chosen(weights, i), start, g, m) == Share(weights, i)
  {
    hide Total, Choice, Slot, Share, Period, SharesDivisible, Chosen;
    var f, p := Chosen(weights, i), Period(weights);
    var h := Along(f, g, m);
    forall k: nat ensures h(k) == h(0) { SameInEveryCell(weights, g, m, k, i); }
    SameTotal(h, 0, 1, g);
    assert h(start) == h(0);
    SwapSums(f, 0, 1, g, g, m);
    TotalInRows(f, g, m);
    OwnPicksAreTotal(weights, 0, 1, p, i);
    ConsecutiveIsStrideOne(weights, 0, p, i);
    FairWindow(weights, 0, i);
  }

  lemma {:induction false} SameTotal(h: nat -> nat, start: nat, stride: nat, n: nat)
    requires forall k: nat :: h(k) == h(0)
    ensures Total(h, start, stride, n) == n * h(0)
  {
    if n > 0 { SameTotal(h, start, stride, n - 1); }
  }

  /** Row by row: m rows of g consecutive values each. */
  lemma {:induction false} TotalInRows(f: nat -> nat, g: nat, m: nat)
    ensures Total(Along(f, 1, g), 0, g, m) == Total(f, 0, 1, g * m)
  {
    if m > 0 {
      TotalInRows(f, g, m - 1);
      assert g * m == g * (m - 1) + g;
      TotalConcat(f, g * (m - 1), g);
    }
  }

  lemma {:induction false} TotalConcat(f: nat -> nat, a: nat, b: nat)
    ensures Total(f, 0, 1, a + b) == Total(f, 0, 1, a) + Total(f, a, 1, b)
  {
    if b > 0 { TotalConcat(f, a, b - 1); }
  }

  lemma {:induction false} CallerShare(weights: seq<nat>, stride: nat, start: nat, i: nat)
    requires weights != [] && stride > 0 && start + stride * Period(weights) <= U64_LIMIT && i < |weights|
    ensures var g, own := Gcd(stride, Period(weights)), OwnPicks(weights, start, stride, Period(weights), i);
            own % g == 0 && (SharesDivisible(weights, g) ==> own == Share(weights, i))
  {
    hide Slot, Share, Period, OwnPicks, Chosen, Gcd, SharesDivisible;
    OwnPicksAreTotal(weights, start, stride, Period(weights), i);
    AtLeast(stride, Period(weights));
    TotalShare(weights, stride, start, i);
  }

  lemma {:induction false} TotalShare(weights: seq<nat>, stride: nat, start: nat, i: nat)
    requires weights != [] && stride > 0 && Period(weights) <= U64_LIMIT && i < |weights|
    ensures var g, own := Gcd(stride, Period(weights)), Total(Chosen(weights, i), start, stride, Period(weights));
            own % g == 0 && (SharesDivisible(weights, g) ==> own == Share(weights, i))
  {
    hide Total, Slot, Share, Period, Chosen, Gcd, Periodic, SharesDivisible;
    var p, g := Period(weights), Gcd(stride, Period(weights));
    ChosenPeriodic(weights, i);
    var m := StrideIsDivisor(Chosen(weights, i), p, stride, start);
    if SharesDivisible(weights, g) { CellShare(weights, g, m, start, i); }
    var cells := Total(Chosen(weights, i), start, g, m);
    AddMultiple(0, g, cells);
    assert g * cells == 0 + cells * g;
  }

  /**
   A caller that draws every `stride`-th counter value is served in proportion to the weights, in
   every stretch of a period of its own picks, if and only if the divisor the stride has in common
   with the period divides every candidate's share.
   */
  lemma {:induction false} FairToCallerIff(weights: seq<nat>, stride: nat)
    requires weights != [] && stride > 0 && stride * Period(weights) <= U64_LIMIT
    ensures FairToCaller(weights, stride) <==> SharesDivisible(weights, Gcd(stride, Period(weights)))
  {
    hide Share, Period, OwnPicks, Gcd;
    var p, g := Period(weights), Gcd(stride, Period(weights));
    if SharesDivisible(weights, g) {
      forall start: nat, i: nat | i < |weights| && start + stride * p <= U64_LIMIT
        ensures OwnPicks(weights, start, stride, p, i) == Share(weights, i)
      {
        CallerShare(weights, stride, start, i);
      }
    }
    if FairToCaller(weights, stride) {
      forall i: nat | i < |weights| ensures Share(weights, i) % g == 0 {
        CallerShare(weights, stride, 0, i);
        assert OwnPicks(weights, 0, stride, p, i) == Share(weights, i);
      }
    }
  }

  lemma {:induction false} WholePeriods(weights: seq<nat>, start: nat, c: nat)
    requires weights != [] && U64_LIMIT % Period(weights) == 0
    ensures Choice(weights, (start + c * Period(weights)) % U64_LIMIT) == Choice(weights, start % U64_LIMIT)
  {
    hide Choice, Slot, Share, Period;
    var p, i := Period(weights), Choice(weights, start % U64_LIMIT);
    var later := start + c * p;
    AddMultiple(start, p, c);
    ModOfMod(later, p);
    ModOfMod(start, p);
    ChoiceBySlot(weights, start % U64_LIMIT, i);
    ChoiceBySlot(weights, later % U64_LIMIT, i);
  }

  /** A caller whose stride is a multiple of the period sends every request to one candidate. */
  lemma {:induction false} OneCandidateOnly(weights: seq<nat>, start: nat, q: nat, n: nat)
    requires weights != [] && U64_LIMIT % Period(weights) == 0
    ensures OwnPicks(weights, start, q * Period(weights), n, Choice(weights, start % U64_LIMIT)) == n
  {
    hide Choice, Period;
    if n > 0 {
      OneCandidateOnly(weights, start, q, n - 1);
      WholePeriods(weights, start, (n - 1) * q);
      Reorder(n - 1, q, Period(weights));
    }
  }

  lemma {:induction false} Reorder(n: nat, q: nat, p: nat)
    ensures q * p * n == (n * q) * p
  {
    Regroup(n, q, p);
    assert q * p * n == n * (q * p);
  }

  /** Two sites with two equal origins each, taking turns: each keeps to a single origin for good. */
  lemma {:induction false} AlternatingSites(start: nat, n: nat)
    ensures OwnPicks([1, 1], start, 2, n, start % 2) == n
    ensures !FairToCaller([1, 1], 2)
  {
    hide OwnPicks;
    var weights: seq<nat> := [1, 1];
    BeforeStep(weights, 0);
    BeforeStep(weights, 1);
    BeforeMonotone(weights, 0, 2);
    assert Before(weights, 0) == 0 && Before(weights, 1) == 1 && Sum(weights) == 2;
    ChoiceBySlot(weights, start % U64_LIMIT, start % 2);
    OneCandidateOnly(weights, start, 1, n);
    FairToCallerIff(weights, 2);
    assert Gcd(2, 2) == 2;
    assert Share(weights, 0) == 1;
  }

  /** The next counter value, from some draw on and within two periods, at which i is chosen. */
  lemma {:induction false} NextDraw(weights: seq<nat>, i: nat, from: nat) returns (draw: nat)
    requires weights != [] && i < |weights| && Share(weights, i) > 0 && Period(weights) <= U64_LIMIT
    ensures from <= draw < from + 2 * Period(weights) && Choice(weights, draw % U64_LIMIT) == i
  {
    hide Choice, Slot, Share, Period;
    var p, slot := Period(weights), Slot(weights, i);
    var c := from % U64_LIMIT;
    SlotsFit(weights, i);
    Divided(from, U64_LIMIT);
    if c + p <= U64_LIMIT {
      var r := c % p;
      Divided(c, p);
      var step := if r <= slot then slot - r else slot - r + p;
      draw := from + step;
      RemainderIsUnique(draw, U64_LIMIT, from / U64_LIMIT, c + step);
      RemainderIsUnique(c + step, p, if r <= slot then c / p else c / p + 1, slot);
      ChoiceBySlot(weights, c + step, i);
    } else {
      draw := from + (U64_LIMIT - c) + slot;
      RemainderIsUnique(draw, U64_LIMIT, from / U64_LIMIT + 1, slot);
      SmallMod(slot, p);
      ChoiceBySlot(weights, slot, i);
    }
  }

  /**
   With arbitrary interleaving the counter promises one caller nothing: any sequence of candidates
   that have a share can be what it gets, with fewer than two periods between its draws, also across
   the wrap of the counter.
   */
  lemma {:induction false} AnySequenceIsPossible(weights: seq<nat>, wanted: seq<nat>,
                                                 start: nat) returns (draws: seq<nat>)
    requires weights != [] && Period(weights) <= U64_LIMIT
    requires forall j | 0 <= j < |wanted| :: wanted[j] < |weights| && Share(weights, wanted[j]) > 0
    ensures |draws| == |wanted|
    ensures forall j | 0 <= j < |draws| :: Choice(weights, draws[j] % U64_LIMIT) == wanted[j]
    ensures draws != [] ==> start <= draws[0] < start + 2 * Period(weights)
    ensures forall j | 0 < j < |draws| :: draws[j - 1] < draws[j] <= draws[j - 1] + 2 * Period(weights)
  {
    hide Choice, Share, Period;
    draws := [];
    while |draws| < |wanted|
      invariant |draws| <= |wanted|
      invariant forall j | 0 <= j < |draws| :: Choice(weights, draws[j] % U64_LIMIT) == wanted[j]
      invariant draws != [] ==> start <= draws[0] < start + 2 * Period(weights)
      invariant forall j | 0 < j < |draws| :: draws[j - 1] < draws[j] <= draws[j - 1] + 2 * Period(weights)
    {
      var from := if draws == [] then start else draws[|draws| - 1] + 1;
      var next := NextDraw(weights, wanted[|draws|], from);
      draws := draws + [next];
    }
  }

  ghost predicate AlwaysFairToCaller(weights: seq<nat>, stride: nat)
    requires weights != []
  {
    forall start: nat, i: nat | i < |weights| ::
      OwnPicks(weights, start, stride, Period(weights), i) == Share(weights, i)
  }

  /** When the period divides 2^64 the wrap is no obstacle either: every stretch of own picks is fair. */
  lemma {:induction false} AlwaysFairToCallerIff(weights: seq<nat>, stride: nat)
    requires weights != [] && stride > 0 && U64_LIMIT % Period(weights) == 0 && Period(weights) <= U64_LIMIT
    ensures AlwaysFairToCaller(weights, stride) <==> SharesDivisible(weights, Gcd(stride, Period(weights)))
  {
    hide Share, Period, OwnPicks, Gcd;
    var p, g := Period(weights), Gcd(stride, Period(weights));
    if SharesDivisible(weights, g) {
      forall start: nat, i: nat | i < |weights| ensures OwnPicks(weights, start, stride, p, i) == Share(weights, i) {
        UnwrappedShare(weights, stride, start, i);
      }
    }
    if AlwaysFairToCaller(weights, stride) {
      forall i: nat | i < |weights| ensures Share(weights, i) % g == 0 {
        UnwrappedShare(weights, stride, 0, i);
        assert OwnPicks(weights, 0, stride, p, i) == Share(weights, i);
      }
    }
  }

  lemma {:induction false} UnwrappedShare(weights: seq<nat>, stride: nat, start: nat, i: nat)
    requires weights != [] && stride > 0 && U64_LIMIT % Period(weights) == 0 && i < |weights|
    requires Period(weights) <= U64_LIMIT
    ensures var g, own := Gcd(stride, Period(weights)), OwnPicks(weights, start, stride, Period(weights), i);
            own % g == 0 && (SharesDivisible(weights, g) ==> own == Share(weights, i))
  {
    hide Slot, Share, Period, OwnPicks, Chosen, Gcd, SharesDivisible;
    OwnPicksUnwrapped(weights, start, stride, Period(weights), i);
    TotalShare(weights, stride, start, i);
  }

  lemma {:induction false} OwnPicksUnwrapped(weights: seq<nat>, start: nat, stride: nat, n: nat, i: nat)
    requires weights != [] && U64_LIMIT % Period(weights) == 0 && i < |weights|
    ensures OwnPicks(weights, start, stride, n, i) == Total(Chosen(weights, i), start, stride, n)
  {
    hide Choice, Chosen, Slot, Share, Period;
    if n > 0 {
      OwnPicksUnwrapped(weights, start, stride, n - 1, i);
      var k := start + stride * (n - 1);
      ChosenAt(weights, i, k);
      ModOfMod(k, Period(weights));
      ChoiceBySlot(weights, k, i);
      ChoiceBySlot(weights, k % U64_LIMIT, i);
    }
  }
}
