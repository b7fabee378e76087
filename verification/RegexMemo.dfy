/**
 The bounded caches of compiled patterns: the one for redirects promotes a pattern on every hit,
 the one for cache rules does not.
 */
module RegexMemo {
  import opened Wrappers

  datatype Regex = Regex(id: nat)

  /** The regular-expression compiler, which may refuse a pattern. */
  type Compiler = string -> Option<Regex>

  const CAPACITY: nat := 256

  function Without(order: seq<string>, p: string): (r: seq<string>)
    ensures |r| <= |order|
  {
    if order == [] then []
    else if order[0] == p then Without(order[1..], p)
    else [order[0]] + Without(order[1..], p)
  }

  /** The last `CAPACITY` elements. */
  function Last(order: seq<string>): (r: seq<string>)
    ensures |r| == if |order| <= CAPACITY then |order| else CAPACITY
  {
    if |order| <= CAPACITY then order else order[|order| - CAPACITY..]
  }

  ghost predicate Distinct(order: seq<string>) {
    forall i, j | 0 <= i < j < |order| :: order[i] != order[j]
  }

  /** The queue after a use: redirect version. */
  function Use(compile: Compiler, order: seq<string>, p: string): seq<string> {
    if compile(p).None? then order else Last(Without(order, p) + [p])
  }

  /** The queue after a use: cache-rule version. */
  function UseFifo(compile: Compiler, order: seq<string>, p: string): seq<string> {
    if compile(p).None? || p in order then order else Last(order + [p])
  }

  lemma {:induction false} WithoutMember(order: seq<string>, p: string, k: string)
    ensures k in Without(order, p) <==> k in order && k != p
  {
    if order != [] {
      WithoutMember(order[1..], p, k);
      assert order == [order[0]] + order[1..];
    }
  }

  lemma {:induction false} WithoutDistinct(order: seq<string>, p: string)
    requires Distinct(order)
    ensures Distinct(Without(order, p)) && |Without(order, p)| == if p in order then |order| - 1 else |order|
    ensures p !in order ==> Without(order, p) == order
  {
    hide Distinct;
    if order == [] {
      assert Distinct([]) by { DistinctCons("", []); }
    } else {
      var first, rest := order[0], order[1..];
      assert order == [first] + rest;
      DistinctCons(first, rest);
      WithoutDistinct(rest, p);
      WithoutMember(rest, p, first);
      DistinctCons(first, Without(rest, p));
    }
  }

  lemma {:induction false} DistinctCons(first: string, rest: seq<string>)
    ensures Distinct([]) && (Distinct([first] + rest) <==> first !in rest && Distinct(rest))
  {
    var order := [first] + rest;
    assert forall i | 0 <= i < |rest| :: order[i + 1] == rest[i];
    assert order[0] == first;
  }

  lemma {:induction false} WithoutConcat(a: seq<string>, b: seq<string>, p: string)
    ensures Without(a + b, p) == Without(a, p) + Without(b, p)
  {
    if a == [] {
      assert a + b == b && [] + Without(b, p) == Without(b, p);
    } else {
      WithoutConcat(a[1..], b, p);
      assert (a + b)[0] == a[0] && (a + b)[1..] == a[1..] + b;
      Associative([a[0]], Without(a[1..], p), Without(b, p));
    }
  }

  /** The queue lists the map's keys once each, and every stored result is what compiling gives. */
  ghost predicate Coherent(compile: Compiler, memo: map<string, Regex>, order: seq<string>) {
    && Distinct(order) && |memo| == |order|
    && (forall k :: k in memo <==> k in order)
    && (forall k | k in memo :: compile(k) == Some(memo[k]))
  }

  class RegexCache {
    const compile: Compiler
    var memo: map<string, Regex>
    var order: seq<string>

    ghost predicate Valid()
      reads this
    {
      Coherent(compile, memo, order) && |order| <= CAPACITY
    }

    constructor (compile: Compiler)
      ensures Valid() && order == [] && this.compile == compile
    {
      this.compile := compile;
      memo, order := map[], [];
    }

    /** The eviction loop and the insertion shared by both versions. */
    method Insert(pattern: string, regex: Regex)
      requires Valid() && pattern !in order && compile(pattern) == Some(regex)
      modifies this
      ensures Valid() && order == Last(old(order) + [pattern])
    {
      hide Coherent, Last;
      Fitted(order, pattern);
      while |memo| >= CAPACITY
        invariant Coherent(compile, memo, order) && |order| <= CAPACITY && pattern !in order
        invariant order == old(order) || (|old(order)| == CAPACITY && order == old(order)[1..])
        decreases |memo|
      {
        SameSize(compile, memo, order);
        Evicted(compile, memo, order);
        var oldest := order[0];
        order := order[1..];
        memo := memo - {oldest};
      }
      SameSize(compile, memo, order);
      Inserted(compile, memo, order, pattern, regex);
      order := order + [pattern];
      memo := memo[pattern := regex];
    }

    /** `get_or_compile_regex` of the redirect rules: least recently used goes first. */
    method GetOrCompileLru(pattern: string) returns (r: Option<Regex>)
      requires Valid()
      modifies this
      ensures Valid() && r == compile(pattern) && order == Use(compile, old(order), pattern)
    {
      if pattern in memo {
        var pos := Position(order, pattern);
        WithoutDistinct(order, pattern);
        Promoted(compile, memo, order, pattern);
        hide Without, Coherent;
        r := Some(memo[pattern]);
        order := order[..pos] + order[pos + 1..] + [pattern];
        return;
      }
      NotThere(order, pattern);
      r := compile(pattern);
      if r.Some? {
        Insert(pattern, r.value);
      }
    }

    /** `get_or_compile_regex` of the cache rules: first in, first out. */
    method GetOrCompileFifo(pattern: string) returns (r: Option<Regex>)
      requires Valid()
      modifies this
      ensures Valid() && r == compile(pattern) && order == UseFifo(compile, old(order), pattern)
    {
      if pattern in memo {
        return Some(memo[pattern]);
      }
      r := compile(pattern);
      if r.Some? {
        Insert(pattern, r.value);
      }
    }
  }

  lemma {:induction false} Fitted(order: seq<string>, p: string)
    requires |order| <= CAPACITY
    ensures Last(order + [p]) == (if |order| == CAPACITY then order[1..] else order) + [p]
  {
  }

  lemma {:induction false} SameSize(compile: Compiler, memo: map<string, Regex>, order: seq<string>)
    requires Coherent(compile, memo, order)
    ensures |memo| == |order|
  {
  }

  lemma {:induction false} Evicted(compile: Compiler, memo: map<string, Regex>, order: seq<string>)
    requires Coherent(compile, memo, order) && order != []
    ensures Coherent(compile, memo - {order[0]}, order[1..])
  {
  }

  lemma {:induction false} TailMember(order: seq<string>, k: string)
    requires Distinct(order) && order != []
    ensures k in order[1..] <==> k in order && k != order[0]
  {
  }

  /** Moving a listed pattern to the back keeps the queue and the map together. */
  lemma {:induction false} Promoted(compile: Compiler, memo: map<string, Regex>, order: seq<string>, p: string)
    requires Coherent(compile, memo, order) && p in order
    ensures Coherent(compile, memo, Without(order, p) + [p])
  {
    var r := Without(order, p);
    WithoutDistinct(order, p);
    WithoutMember(order, p, p);
    hide Without;
    forall k
      ensures k in memo <==> k in r + [p]
    {
      WithoutMember(order, p, k);
    }
  }

  lemma {:induction false} Inserted(compile: Compiler, memo: map<string, Regex>, order: seq<string>, p: string,
                                    regex: Regex)
    requires Coherent(compile, memo, order) && p !in order && compile(p) == Some(regex)
    ensures Coherent(compile, memo[p := regex], order + [p])
  {
  }

  method Position(order: seq<string>, pattern: string) returns (pos: nat)
    requires pattern in order && Distinct(order)
    ensures pos < |order| && order[pos] == pattern && Without(order, pattern) == order[..pos] + order[pos + 1..]
  {
    pos := 0;
    while order[pos] != pattern
      invariant pos < |order| && forall j | 0 <= j < pos :: order[j] != pattern
      invariant exists j | pos <= j < |order| :: order[j] == pattern
      decreases |order| - pos
    {
      pos := pos + 1;
    }
    WithoutFirst(order, pos);
  }

  lemma {:induction false} WithoutFirst(order: seq<string>, pos: nat)
    requires pos < |order| && Distinct(order)
    ensures Without(order, order[pos]) == order[..pos] + order[pos + 1..]
  {
    var a, p, b := order[..pos], order[pos], order[pos + 1..];
    assert order == a + ([p] + b) && ([p] + b)[1..] == b;
    WithoutConcat(a, [p] + b, p);
    NotThere(a, p);
    NotThere(b, p);
  }

  // ------------------------------------------------------------------------------------------
  // Whole histories of calls.

  function Queue(compile: Compiler, history: seq<string>): seq<string> {
    if history == [] then [] else Use(compile, Queue(compile, history[..|history| - 1]), history[|history| - 1])
  }

  /** All valid patterns ever used, ordered by their latest use. */
  function Recency(compile: Compiler, history: seq<string>): (r: seq<string>) {
    if history == [] then []
    else
      var before, p := Recency(compile, history[..|history| - 1]), history[|history| - 1];
      if compile(p).None? then before else Without(before, p) + [p]
  }

  lemma {:induction false} RecencyDistinct(compile: Compiler, history: seq<string>)
    ensures Distinct(Recency(compile, history))
  {
    if history != [] {
      RecencyDistinct(compile, history[..|history| - 1]);
      var before, p := Recency(compile, history[..|history| - 1]), history[|history| - 1];
      WithoutDistinct(before, p);
      WithoutMember(before, p, p);
    }
  }

  lemma {:induction false} LastOfConcat(a: seq<string>, b: seq<string>)
    requires |b| <= CAPACITY
    ensures Last(a + b) == (if |a| + |b| <= CAPACITY then a else a[|a| + |b| - CAPACITY..]) + b
  {
  }

  /** The kept part fills the queue; what comes before it is irrelevant after a use. */
  lemma {:induction false} OldPartIsIrrelevant(gone: seq<string>, kept: seq<string>, p: string)
    requires |kept| == CAPACITY
    ensures Last(gone + (kept + [p])) == Last(kept + [p])
  {
  }

  /** Dropping what no longer fits before or after a use makes no difference. */
  lemma {:induction false} UseOfLast(order: seq<string>, p: string)
    requires Distinct(order)
    ensures Last(Without(Last(order), p) + [p]) == Last(Without(order, p) + [p])
  {
    if |order| > CAPACITY {
      var n := |order| - CAPACITY;
      var gone, kept := order[..n], order[n..];
      assert gone + kept == order;
      WithoutConcat(gone, kept, p);
      WithoutDistinct(kept, p);
      hide Without;
      var a, b := Without(gone, p), Without(kept, p);
      Associative(a, b, [p]);
      if p in kept {
        LastOfConcat(a, b + [p]);
      } else {
        OldPartIsIrrelevant(a, b, p);
      }
    }
  }

  /** The queue holds the most recently used valid patterns. */
  lemma {:induction false} QueueIsRecent(compile: Compiler, history: seq<string>)
    ensures Queue(compile, history) == Last(Recency(compile, history))
  {
    if history != [] {
      var front, p := history[..|history| - 1], history[|history| - 1];
      QueueIsRecent(compile, front);
      RecencyDistinct(compile, front);
      UseOfLast(Recency(compile, front), p);
    }
  }

  /** The distinct valid patterns used since the last use of k. */
  function Since(compile: Compiler, history: seq<string>, k: string): set<string> {
    if history == [] then {}
    else
      var p := history[|history| - 1];
      if p == k then {}
      else Since(compile, history[..|history| - 1], k) + if compile(p).Some? then {p} else {}
  }

  function Elements(s: seq<string>): set<string> { set x | x in s }

  ghost predicate After(order: seq<string>, k: string, later: set<string>) {
    exists i | 0 <= i < |order| :: order[i] == k && Elements(order[i + 1..]) == later
  }

  lemma {:induction false} RecencyOrder(compile: Compiler, history: seq<string>, k: string)
    ensures k in Recency(compile, history) <==> k in history && compile(k).Some?
    ensures k in Recency(compile, history) ==> After(Recency(compile, history), k, Since(compile, history, k))
  {
    if history != [] {
      var front, p := history[..|history| - 1], history[|history| - 1];
      assert history == front + [p];
      RecencyOrder(compile, front, k);
      var before := Recency(compile, front);
      if compile(p).Some? {
        WithoutMember(before, p, k);
        if p == k {
          var order := Without(before, p) + [p];
          assert order[|order| - 1] == k && order[|order|..] == [];
        } else if k in before {
          AfterUse(before, k, p, Since(compile, front, k));
        }
      }
    }
  }

  lemma {:induction false} Found(a: seq<string>, k: string, b: seq<string>)
    ensures After(a + ([k] + b), k, Elements(b))
  {
    hide Elements;
    var r := a + ([k] + b);
    assert r[|a|] == k && r[|a| + 1..] == b;
  }

  lemma {:induction false} ElementsAfterUse(b: seq<string>, p: string)
    ensures Elements(Without(b, p) + [p]) == Elements(b) + {p}
  {
    forall x
      ensures x in Elements(Without(b, p) + [p]) <==> x in Elements(b) + {p}
    {
      WithoutMember(b, p, x);
    }
  }

  lemma {:induction false} WithoutAround(a: seq<string>, k: string, b: seq<string>, p: string)
    requires p != k
    ensures Without(a + ([k] + b), p) + [p] == Without(a, p) + ([k] + (Without(b, p) + [p]))
  {
    WithoutConcat(a, [k] + b, p);
    WithoutConcat([k], b, p);
    assert Without([k], p) == [k];
    hide Without;
    Associative(Without(a, p), [k] + Without(b, p), [p]);
    Associative([k], Without(b, p), [p]);
  }

  lemma {:induction false} AfterUse(order: seq<string>, k: string, p: string, later: set<string>)
    requires p != k && After(order, k, later)
    ensures After(Without(order, p) + [p], k, later + {p})
  {
    hide Without, Elements;
    var i :| 0 <= i < |order| && order[i] == k && Elements(order[i + 1..]) == later;
    var a, b := order[..i], order[i + 1..];
    assert order == a + ([k] + b);
    WithoutAround(a, k, b, p);
    ElementsAfterUse(b, p);
    Found(Without(a, p), k, Without(b, p) + [p]);
  }

  lemma {:induction false} DistinctCount(s: seq<string>)
    requires Distinct(s)
    ensures |Elements(s)| == |s|
  {
    if s != [] {
      DistinctCount(s[1..]);
      assert s[0] !in s[1..];
      assert Elements(s) == Elements(s[1..]) + {s[0]};
    }
  }

  /** Least recently used: a pattern is cached iff fewer than 256 others were used since its last use. */
  lemma {:induction false} CachedIff(compile: Compiler, history: seq<string>, k: string)
    ensures k in Queue(compile, history)
       <==> k in history && compile(k).Some? && |Since(compile, history, k)| < 256
  {
    var r := Recency(compile, history);
    QueueIsRecent(compile, history);
    RecencyOrder(compile, history, k);
    RecencyDistinct(compile, history);
    hide Recency, Queue, Since;
    if k in r { InLastIff(r, k, Since(compile, history, k)); }
  }

  lemma {:induction false} InLastIff(r: seq<string>, k: string, later: set<string>)
    requires Distinct(r) && After(r, k, later)
    ensures k in Last(r) <==> |later| < CAPACITY
  {
    hide Elements;
    var i :| 0 <= i < |r| && r[i] == k && Elements(r[i + 1..]) == later;
    DistinctCount(r[i + 1..]);
    if |r| > CAPACITY {
      var n := |r| - CAPACITY;
      if i >= n { assert r[n..][i - n] == k; }
    }
  }

  // ------------------------------------------------------------------------------------------
  // The version without promotion.

  lemma {:induction false} FullQueue(oldest: string, rest: seq<string>, p: string)
    requires |rest| == CAPACITY - 1
    ensures Last([oldest] + rest + [p]) == rest + [p]
  {
  }

  lemma {:induction false} UseOfOldest(compile: Compiler, oldest: string, rest: seq<string>)
    requires Distinct([oldest] + rest) && |rest| == CAPACITY - 1 && compile(oldest).Some?
    ensures Use(compile, [oldest] + rest, oldest) == rest + [oldest]
  {
    var order := [oldest] + rest;
    assert order[1..] == rest;
    TailMember(order, oldest);
    NotThere(rest, oldest);
  }

  function QueueFifo(compile: Compiler, history: seq<string>): seq<string> {
    if history == [] then []
    else UseFifo(compile, QueueFifo(compile, history[..|history| - 1]), history[|history| - 1])
  }

  predicate Young(age: Option<nat>) {
    age.Some? && age.value < CAPACITY
  }

  /** How many patterns have been inserted since k last was; a use of a young pattern inserts nothing. */
  function Age(compile: Compiler, history: seq<string>, k: string): Option<nat> {
    if history == [] then None
    else
      var front, p := history[..|history| - 1], history[|history| - 1];
      var age := Age(compile, front, k);
      if compile(p).None? || Young(Age(compile, front, p)) then age
      else if p == k then Some(0)
      else if age.Some? then Some(age.value + 1) else None
  }

  /** A pattern's place in the queue, counted from the newest, is its age. */
  ghost predicate Placed(order: seq<string>, k: string, age: Option<nat>) {
    && (k in order <==> Young(age))
    && (Young(age) ==> age.value < |order| && order[|order| - 1 - age.value] == k)
  }

  lemma {:induction false} InsertPlaces(order: seq<string>, p: string, k: string, age: Option<nat>)
    requires |order| <= CAPACITY && Distinct(order) && p !in order && p != k && Placed(order, k, age)
    ensures Placed(Last(order + [p]), k, if age.Some? then Some(age.value + 1) else None)
  {
    var next, longer := Last(order + [p]), order + [p];
    if Young(age) {
      var i := |order| - 1 - age.value;
      assert longer[i] == k;
      if |order| == CAPACITY {
        assert next == longer[1..];
        if i > 0 { assert next[i - 1] == k; }
      }
    }
  }

  lemma {:induction false} FifoPlaces(compile: Compiler, history: seq<string>, k: string)
    ensures Placed(QueueFifo(compile, history), k, Age(compile, history, k))
    ensures |QueueFifo(compile, history)| <= CAPACITY && Distinct(QueueFifo(compile, history))
  {
    if history != [] {
      hide Placed;
      var front, p := history[..|history| - 1], history[|history| - 1];
      var order := QueueFifo(compile, front);
      FifoPlaces(compile, front, k);
      FifoPlaces(compile, front, p);
      FifoStep(compile, order, p, k, Age(compile, front, p), Age(compile, front, k));
    }
  }

  lemma {:induction false} FifoStep(compile: Compiler, order: seq<string>, p: string, k: string, aged: Option<nat>,
                                   age: Option<nat>)
    requires |order| <= CAPACITY && Distinct(order) && Placed(order, p, aged) && Placed(order, k, age)
    ensures var next := UseFifo(compile, order, p);
            && |next| <= CAPACITY && Distinct(next)
            && Placed(next, k, if compile(p).None? || Young(aged) then age else if p == k then Some(0)
                               else if age.Some? then Some(age.value + 1) else None)
  {
    if compile(p).Some? && p !in order {
      var next := Last(order + [p]);
      if p == k { assert next[|next| - 1] == k; } else { InsertPlaces(order, p, k, age); }
    }
  }

  /** First in, first out: a pattern is cached iff fewer than 256 patterns were inserted since it was. */
  lemma {:induction false} CachedFifoIff(compile: Compiler, history: seq<string>, k: string)
    ensures k in QueueFifo(compile, history) <==> Young(Age(compile, history, k))
  {
    hide QueueFifo, Age;
    FifoPlaces(compile, history, k);
  }

  /**
   When the queue is full, a hit on its oldest pattern followed by a new one: without promotion the
   pattern just used is the one evicted, with promotion it is the next oldest.
   */
  lemma {:induction false} HitDoesNotProtect(compile: Compiler, oldest: string, second: string,
                                             rest: seq<string>, newer: string)
    requires Distinct([oldest, second] + rest) && |rest| == CAPACITY - 2 && newer !in [oldest, second] + rest
    requires compile(oldest).Some? && compile(newer).Some?
    ensures var order := [oldest, second] + rest;
            && UseFifo(compile, UseFifo(compile, order, oldest), newer) == [second] + rest + [newer]
            && Use(compile, Use(compile, order, oldest), newer) == rest + [oldest] + [newer]
  {
    var order, tail := [oldest, second] + rest, [second] + rest;
    assert order == [oldest] + tail;
    UseOfOldest(compile, oldest, tail);
    FullQueue(oldest, tail, newer);
    assert order + [newer] == [oldest] + tail + [newer];
    NotThere(tail + [oldest], newer);
    assert tail + [oldest] == [second] + (rest + [oldest]);
    FullQueue(second, rest + [oldest], newer);
  }

  lemma {:induction false} NotThere(order: seq<string>, p: string)
    requires p !in order
    ensures Without(order, p) == order
  {
    if order != [] { NotThere(order[1..], p); }
  }
}
