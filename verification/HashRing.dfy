/**
 The Ketama ring behind `LbAlgorithm::IpHash`: virtual nodes, the sorted ring, and the search with
 wrap-around.  `hash` stands for SipHash; an origin's `weight` is its effective weight.
 */
module HashRing {
  import opened Wrappers
  import opened Decimal

  datatype Origin = Origin(id: string, weight: nat)

  const VNODES_PER_WEIGHT: nat := 40

  datatype Entry = Entry(point: nat, index: nat)

  type Hash = string -> nat

  function VnodeKey(id: string, i: nat): string {
    id + "-" + Digits(i)
  }

  /** Different virtual nodes hash different keys, whatever characters the ids contain. */
  lemma {:induction false} VnodeKeysDiffer(a: string, i: nat, b: string, j: nat)
    ensures VnodeKey(a, i) == VnodeKey(b, j) <==> a == b && i == j
  {
    hide Digits;
    if VnodeKey(a, i) == VnodeKey(b, j) {
      SameSplit(a, Digits(i), b, Digits(j));
      ValueOfDigits(i);
      ValueOfDigits(j);
    }
  }

  lemma {:induction false} SameSplit(a: string, d: string, b: string, e: string)
    requires AllDigits(d) && AllDigits(e) && a + "-" + d == b + "-" + e
    ensures a == b && d == e
  {
    NoLaterDash(a, d, b, e);
    NoLaterDash(b, e, a, d);
    var s, t := a + "-" + d, b + "-" + e;
    assert s[..|a|] == a && t[..|b|] == b && s[|a| + 1..] == d && t[|b| + 1..] == e;
  }

  lemma {:induction false} NoLaterDash(a: string, d: string, b: string, e: string)
    requires AllDigits(d) && a + "-" + d == b + "-" + e
    ensures |b| <= |a|
  {
    var s := a + "-" + d;
    assert (b + "-" + e)[|b|] == '-';
    assert forall k | |a| < k < |s| :: s[k] == d[k - |a| - 1];
  }

  // ------------------------------------------------------------------------------------------
  // What the ring computes: the virtual node first met going clockwise from the client's hash.

  datatype Node = Node(id: string, i: nat)

  ghost predicate HasNode(origins: seq<Origin>, n: Node) {
    exists k | 0 <= k < |origins| :: origins[k].id == n.id && n.i < 40 * origins[k].weight
  }

  function PointOf(n: Node, hash: Hash): nat {
    hash(VnodeKey(n.id, n.i))
  }

  function Clockwise(x: nat, point: nat): int {
    if point >= x then point - x else point - x + U64_LIMIT
  }

  ghost predicate Nearest(origins: seq<Origin>, hash: Hash, x: nat, n: Node) {
    && HasNode(origins, n)
    && forall m | HasNode(origins, m) :: Clockwise(x, PointOf(n, hash)) <= Clockwise(x, PointOf(m, hash))
  }

  ghost predicate RingIsEmpty(origins: seq<Origin>) {
    forall k | 0 <= k < |origins| :: origins[k].weight == 0
  }

  /** The contract of the selection: nearest virtual node, or plain modulo when no origin has weight. */
  ghost predicate Selects(origins: seq<Origin>, hash: Hash, x: nat, o: Origin) {
    && o in origins
    && if RingIsEmpty(origins) then origins != [] && o == origins[x % |origins|]
       else exists i :: Nearest(origins, hash, x, Node(o.id, i))
  }

  // ------------------------------------------------------------------------------------------
  // Building, sorting and searching the ring.

  predicate Sorted(ring: seq<Entry>) {
    forall i, j | 0 <= i < j < |ring| :: ring[i].point <= ring[j].point
  }

  function Insert(ring: seq<Entry>, e: Entry): seq<Entry> {
    if ring == [] || e.point <= ring[0].point then [e] + ring else [ring[0]] + Insert(ring[1..], e)
  }

  lemma {:induction false} InsertKeeps(ring: seq<Entry>, e: Entry)
    ensures multiset(Insert(ring, e)) == multiset(ring) + multiset{e}
  {
    if ring != [] && e.point > ring[0].point {
      InsertKeeps(ring[1..], e);
      assert ring == [ring[0]] + ring[1..];
    }
  }

  lemma {:induction false} InsertSorts(ring: seq<Entry>, e: Entry)
    requires Sorted(ring)
    ensures Sorted(Insert(ring, e))
    ensures Insert(ring, e) != [] && Insert(ring, e)[0] == if ring == [] || e.point <= ring[0].point then e else ring[0]
  {
    if ring != [] && e.point > ring[0].point {
      InsertSorts(ring[1..], e);
      var rest := Insert(ring[1..], e);
      assert ring[0].point <= rest[0].point;
    }
  }

  method SortByPoint(ring: seq<Entry>) returns (r: seq<Entry>)
    ensures Sorted(r) && multiset(r) == multiset(ring)
  {
    r := [];
    for i := 0 to |ring|
      invariant Sorted(r) && multiset(r) == multiset(ring[..i])
    {
      assert ring[..i + 1] == ring[..i] + [ring[i]];
      InsertKeeps(r, ring[i]);
      InsertSorts(r, ring[i]);
      r := Insert(r, ring[i]);
    }
    assert ring[..|ring|] == ring;
  }

  /** Each entry is a virtual node of the origin it indexes, and every virtual node has an entry. */
  ghost predicate Represents(ring: seq<Entry>, origins: seq<Origin>, hash: Hash) {
    && (forall e | e in ring ::
          e.index < |origins| &&
          exists i: nat :: HasVnode(origins, e.index, i) && e.point == hash(VnodeKey(origins[e.index].id, i)))
    && (forall k: nat, i: nat | HasVnode(origins, k, i) :: Entry(hash(VnodeKey(origins[k].id, i)), k) in ring)
  }

  ghost predicate HasVnode(origins: seq<Origin>, k: nat, i: nat) {
    k < |origins| && i < origins[k].weight * VNODES_PER_WEIGHT
  }

  ghost predicate PartlyBuilt(ring: seq<Entry>, origins: seq<Origin>, hash: Hash, k: nat, i: nat) {
    && (forall e | e in ring ::
          e.index < |origins| &&
          exists j: nat :: HasVnode(origins, e.index, j) && e.point == hash(VnodeKey(origins[e.index].id, j)))
    && (forall l: nat, j: nat | HasVnode(origins, l, j) && (l < k || (l == k && j < i)) ::
          Entry(hash(VnodeKey(origins[l].id, j)), l) in ring)
  }

  method BuildHashRing(origins: seq<Origin>, hash: Hash) returns (ring: seq<Entry>)
    ensures Sorted(ring) && Represents(ring, origins, hash)
  {
    ring := [];
    for k := 0 to |origins|
      invariant PartlyBuilt(ring, origins, hash, k, 0)
    {
      var vnodes := origins[k].weight * VNODES_PER_WEIGHT;
      for i := 0 to vnodes
        invariant PartlyBuilt(ring, origins, hash, k, i)
      {
        assert HasVnode(origins, k, i);
        ring := PushVnode(ring, origins, hash, k, i);
      }
    }
    ghost var built := ring;
    ring := SortByPoint(ring);
    forall e ensures e in ring <==> e in built { assert e in multiset(ring) <==> e in multiset(built); }
  }

  method PushVnode(ring: seq<Entry>, origins: seq<Origin>, hash: Hash, k: nat, i: nat) returns (r: seq<Entry>)
    requires PartlyBuilt(ring, origins, hash, k, i) && HasVnode(origins, k, i)
    ensures PartlyBuilt(r, origins, hash, k, i + 1)
  {
    hide VnodeKey;
    var e := Entry(hash(VnodeKey(origins[k].id, i)), k);
    r := ring + [e];
    forall f | f in r
      ensures f.index < |origins|
        && exists j: nat :: HasVnode(origins, f.index, j) && f.point == hash(VnodeKey(origins[f.index].id, j))
    {
      if f !in ring { assert f == e; }
    }
  }

  /** `binary_search_by_key`: an entry at exactly x, or the place where x would be inserted. */
  method BinarySearch(ring: seq<Entry>, x: nat) returns (found: bool, at: nat)
    requires Sorted(ring)
    ensures found ==> at < |ring| && ring[at].point == x
    ensures !found ==> at <= |ring| && (forall i | 0 <= i < at :: ring[i].point < x)
                                    && (forall i | at <= i < |ring| :: ring[i].point > x)
  {
    var low, high := 0, |ring|;
    while low < high
      invariant 0 <= low <= high <= |ring|
      invariant forall i | 0 <= i < low :: ring[i].point < x
      invariant forall i | high <= i < |ring| :: ring[i].point > x
    {
      var mid := (low + high) / 2;
      if ring[mid].point == x {
        return true, mid;
      } else if ring[mid].point < x {
        low := mid + 1;
      } else {
        high := mid;
      }
    }
    return false, low;
  }

  method SelectIpHash(origins: seq<Origin>, hash: Hash, x: nat) returns (o: Origin)
    requires origins != [] && x < U64_LIMIT && forall s :: hash(s) < U64_LIMIT
    ensures Selects(origins, hash, x, o)
  {
    var ring := BuildHashRing(origins, hash);
    if ring == [] {
      EmptyRing(ring, origins, hash);
      return origins[x % |origins|];
    }
    var found, at := BinarySearch(ring, x);
    var index := if found then at else if at >= |ring| then 0 else at;
    NearestEntry(ring, x, found, at, index);
    EntryWins(ring, origins, hash, x, index);
    o := origins[ring[index].index];
  }

  lemma {:induction false} EmptyRing(ring: seq<Entry>, origins: seq<Origin>, hash: Hash)
    requires Represents(ring, origins, hash) && ring == []
    ensures RingIsEmpty(origins)
  {
    forall k | 0 <= k < |origins| ensures origins[k].weight == 0 {
      assert !HasVnode(origins, k, 0);
    }
  }

  lemma {:induction false} NearestEntry(ring: seq<Entry>, x: nat, found: bool, at: nat, index: nat)
    requires ring != [] && Sorted(ring) && x < U64_LIMIT
    requires forall i | 0 <= i < |ring| :: ring[i].point < U64_LIMIT
    requires if found then at < |ring| && ring[at].point == x
             else at <= |ring| && (forall i | 0 <= i < at :: ring[i].point < x)
                               && (forall i | at <= i < |ring| :: ring[i].point > x)
    requires index == if found then at else if at >= |ring| then 0 else at
    ensures index < |ring|
    ensures forall e | e in ring :: Clockwise(x, ring[index].point) <= Clockwise(x, e.point)
  {
  }

  lemma {:induction false} EntryWins(ring: seq<Entry>, origins: seq<Origin>, hash: Hash, x: nat, index: nat)
    requires Represents(ring, origins, hash) && index < |ring|
    requires forall e | e in ring :: Clockwise(x, ring[index].point) <= Clockwise(x, e.point)
    ensures ring[index].index < |origins| && !RingIsEmpty(origins)
    ensures exists i :: Nearest(origins, hash, x, Node(origins[ring[index].index].id, i))
  {
    hide VnodeKey, Clockwise;
    var e := ring[index];
    assert e in ring;
    var i: nat :| HasVnode(origins, e.index, i) && e.point == hash(VnodeKey(origins[e.index].id, i));
    var n := Node(origins[e.index].id, i);
    forall m | HasNode(origins, m) ensures Clockwise(x, PointOf(n, hash)) <= Clockwise(x, PointOf(m, hash)) {
      var k :| 0 <= k < |origins| && origins[k].id == m.id && m.i < origins[k].weight * VNODES_PER_WEIGHT;
      assert HasVnode(origins, k, m.i);
      assert Entry(hash(VnodeKey(origins[k].id, m.i)), k) in ring;
    }
    assert Nearest(origins, hash, x, n);
  }

  // ------------------------------------------------------------------------------------------
  // Consistency.

  /** Virtual nodes of different origins never share a ring point. */
  ghost predicate NoSharedPoints(origins: seq<Origin>, hash: Hash) {
    forall n, m | HasNode(origins, n) && HasNode(origins, m) && PointOf(n, hash) == PointOf(m, hash) :: n.id == m.id
  }

  lemma {:induction false} NearestIsUnique(origins: seq<Origin>, hash: Hash, x: nat, n: Node, m: Node)
    requires NoSharedPoints(origins, hash) && x < U64_LIMIT && forall s :: hash(s) < U64_LIMIT
    requires Nearest(origins, hash, x, n) && Nearest(origins, hash, x, m)
    ensures n.id == m.id
  {
  }

  /** `more` has every virtual node of `fewer`, and its further ones all belong to one origin. */
  ghost predicate GrowsBy(fewer: seq<Origin>, more: seq<Origin>, id: string) {
    && (forall n | HasNode(fewer, n) :: HasNode(more, n))
    && (forall n | HasNode(more, n) && n.id != id :: HasNode(fewer, n))
  }

  /** Growing one origin moves clients only to that origin; shrinking it moves only its own. */
  lemma {:induction false} OnlyThatOriginMoves(fewer: seq<Origin>, more: seq<Origin>, id: string, hash: Hash, x: nat,
                                              before: Origin, after: Origin)
    requires GrowsBy(fewer, more, id) && !RingIsEmpty(more) && NoSharedPoints(more, hash)
    requires x < U64_LIMIT && forall s :: hash(s) < U64_LIMIT
    requires Selects(fewer, hash, x, before) && Selects(more, hash, x, after)
    ensures after.id == before.id || after.id == id
  {
  }

  function Without(origins: seq<Origin>, k: nat): seq<Origin>
    requires k < |origins|
  {
    origins[..k] + origins[k + 1..]
  }

  lemma {:induction false} RemovalShrinks(origins: seq<Origin>, k: nat)
    requires k < |origins|
    ensures GrowsBy(Without(origins, k), origins, origins[k].id)
  {
    var fewer := Without(origins, k);
    forall n | HasNode(fewer, n) ensures HasNode(origins, n) {
      var j :| 0 <= j < |fewer| && fewer[j].id == n.id && n.i < fewer[j].weight * VNODES_PER_WEIGHT;
      assert origins[if j < k then j else j + 1] == fewer[j];
    }
    forall n | HasNode(origins, n) && n.id != origins[k].id ensures HasNode(fewer, n) {
      var j :| 0 <= j < |origins| && origins[j].id == n.id && n.i < origins[j].weight * VNODES_PER_WEIGHT;
      assert fewer[if j < k then j else j - 1] == origins[j];
    }
  }

  /** Raising an origin's effective weight moves clients only to that origin. */
  lemma {:induction false} RaisingWeightAttracts(origins: seq<Origin>, k: nat, weight: nat, hash: Hash, x: nat,
                                                before: Origin, after: Origin)
    requires k < |origins| && weight > 0 && weight >= origins[k].weight
    requires var raised := origins[k := origins[k].(weight := weight)];
      NoSharedPoints(raised, hash) && Selects(raised, hash, x, after)
    requires Selects(origins, hash, x, before) && x < U64_LIMIT && forall s :: hash(s) < U64_LIMIT
    ensures after.id == before.id || after.id == origins[k].id
  {
    hide VnodeKey;
    var raised := origins[k := origins[k].(weight := weight)];
    forall n | HasNode(origins, n) ensures HasNode(raised, n) {
      var j :| 0 <= j < |origins| && origins[j].id == n.id && n.i < origins[j].weight * VNODES_PER_WEIGHT;
      assert raised[j].id == n.id && n.i < raised[j].weight * VNODES_PER_WEIGHT;
    }
    forall n | HasNode(raised, n) && n.id != origins[k].id ensures HasNode(origins, n) {
      var j :| 0 <= j < |raised| && raised[j].id == n.id && n.i < raised[j].weight * VNODES_PER_WEIGHT;
      assert origins[j] == raised[j];
    }
    assert raised[k].weight != 0;
    OnlyThatOriginMoves(origins, raised, origins[k].id, hash, x, before, after);
  }

  ghost predicate DistinctIds(origins: seq<Origin>) {
    forall i, j | 0 <= i < j < |origins| :: origins[i].id != origins[j].id
  }

  /**
   Taking the k-th origin out leaves every client it did not serve on the same origin; read the
   other way, putting it in moves clients only to it.
   */
  ghost predicate MovesOnlyItsClients(origins: seq<Origin>, k: nat, hash: Hash)
    requires k < |origins|
  {
    forall x: nat, full: Origin, reduced: Origin | x < U64_LIMIT && full.id != origins[k].id
        && Selects(origins, hash, x, full) && Selects(Without(origins, k), hash, x, reduced) ::
      reduced.id == full.id
  }

  lemma {:induction false} WeightedRingIsConsistent(origins: seq<Origin>, k: nat, hash: Hash)
    requires k < |origins| && !RingIsEmpty(origins) && NoSharedPoints(origins, hash)
    requires forall s :: hash(s) < U64_LIMIT
    ensures MovesOnlyItsClients(origins, k, hash)
  {
    hide Selects, GrowsBy, NoSharedPoints;
    RemovalShrinks(origins, k);
    forall x: nat, full: Origin, reduced: Origin | x < U64_LIMIT && full.id != origins[k].id
        && Selects(origins, hash, x, full) && Selects(Without(origins, k), hash, x, reduced)
      ensures reduced.id == full.id
    {
      OnlyThatOriginMoves(Without(origins, k), origins, origins[k].id, hash, x, reduced, full);
    }
  }

  /** With no weight anywhere the choice is hash modulo count, which a removal reshuffles. */
  lemma {:induction false} ModuloReshuffles(origins: seq<Origin>, k: nat, hash: Hash)
    requires k < |origins| && RingIsEmpty(origins) && DistinctIds(origins) && 3 <= |origins| < U64_LIMIT
    ensures !MovesOnlyItsClients(origins, k, hash)
  {
    hide Nearest, VnodeKey;
    var n, rest := |origins|, Without(origins, k);
    assert RingIsEmpty(rest);
    var x, was, now := ModuloWitness(n, k);
    assert origins[was] in origins && rest[now] in rest;
    assert Selects(origins, hash, x, origins[was]) && Selects(rest, hash, x, rest[now]);
    assert rest[now] == origins[if now < k then now else now + 1];
  }

  lemma {:induction false} ModuloWitness(n: nat, k: nat) returns (x: nat, was: nat, now: nat)
    requires k < n && n >= 3
    ensures x <= n && was < n && now < n - 1
    ensures x % n == was && x % (n - 1) == now
    ensures was != k && was != if now < k then now else now + 1
  {
    if k == n - 1 {
      x, was, now := n, 0, 1;
      Quotient(n, n, 1, 0);
      Quotient(n, n - 1, 1, 1);
    } else if k == n - 2 {
      x, was, now := n - 1, n - 1, 0;
      Quotient(n - 1, n, 0, n - 1);
      Quotient(n - 1, n - 1, 1, 0);
    } else {
      x, was, now := k + 1, k + 1, k + 1;
      Quotient(k + 1, n, 0, k + 1);
      Quotient(k + 1, n - 1, 0, k + 1);
    }
  }

  lemma {:induction false} Quotient(x: nat, m: nat, q: nat, r: nat)
    requires m > 0 && r < m && x == q * m + r && q <= 1
    ensures x % m == r
  {
  }

  lemma {:induction false} PairIsConsistent(origins: seq<Origin>, k: nat, hash: Hash)
    requires k < |origins| == 2 && RingIsEmpty(origins)
    ensures MovesOnlyItsClients(origins, k, hash)
  {
  }

  /**
   The promise of consistent hashing holds for every client if and only if some candidate has
   weight, or there are no more than two candidates.
   */
  lemma {:induction false} ConsistentIff(origins: seq<Origin>, k: nat, hash: Hash)
    requires k < |origins| && 2 <= |origins| < U64_LIMIT && DistinctIds(origins) && NoSharedPoints(origins, hash)
    requires forall s :: hash(s) < U64_LIMIT
    ensures MovesOnlyItsClients(origins, k, hash) <==> !RingIsEmpty(origins) || |origins| <= 2
  {
    hide MovesOnlyItsClients, NoSharedPoints, DistinctIds;
    if !RingIsEmpty(origins) {
      WeightedRingIsConsistent(origins, k, hash);
    } else if |origins| <= 2 {
      PairIsConsistent(origins, k, hash);
    } else {
      ModuloReshuffles(origins, k, hash);
    }
  }

  /** It is enough that the hash does not collide on the ring's own keys. */
  lemma {:induction false} CollisionFreeKeysShareNoPoints(origins: seq<Origin>, hash: Hash)
    requires forall n, m | HasNode(origins, n) && HasNode(origins, m) && PointOf(n, hash) == PointOf(m, hash) ::
               VnodeKey(n.id, n.i) == VnodeKey(m.id, m.i)
    ensures NoSharedPoints(origins, hash)
  {
    hide VnodeKey;
    forall n, m | HasNode(origins, n) && HasNode(origins, m) && PointOf(n, hash) == PointOf(m, hash)
      ensures n.id == m.id
    {
      VnodeKeysDiffer(n.id, n.i, m.id, m.i);
    }
  }
}
