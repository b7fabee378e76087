/**
 Versioned site configurations in etcd: `save_version`, `rollback_to_version` and
 `prune_old_versions`, run by any number of nodes at once on one site's history.

 Each etcd call is one atomic step; nodes interleave between calls.  `commits` records, beside the
 store, what was committed, so that pruned versions can still be spoken of.
 */
module ConfigHistory {
  import opened Wrappers
  import opened Decimal

  const MAX_VERSIONS_PER_SITE: nat := 50
  const MAX_CAS_RETRIES: nat := 5

  datatype ChangeType = Created | Updated | Deleted | Rollback

  datatype Snapshot = Snapshot(version: nat, revision: nat, change: ChangeType, config: seq<Byte>)

  /** What a node was asked to save; `restores` is the version a rollback read it from. */
  datatype Job = Job(config: seq<Byte>, change: ChangeType, revision: nat, restores: Option<nat>)

  datatype Meta = Meta(latest: nat, modRevision: nat)

  datatype Node =
    | Restoring(config: seq<Byte>, from: nat)
    | Saving(job: Job, attempt: nat)
    | HasRead(job: Job, attempt: nat, version: nat, expected: Option<nat>)
    | Pruning(job: Job, version: nat)
    | Saved(job: Job, version: nat)
    | Failed

  datatype Commit = Commit(node: nat, job: Job, snapshot: Snapshot)

  datatype Cluster = Cluster(
    revision: nat,
    meta: Option<Meta>,
    store: map<string, Snapshot>,
    commits: seq<Commit>,
    nodes: map<nat, Node>)

  datatype Step =
    | Begin(id: nat, config: seq<Byte>, change: ChangeType, siteRevision: nat)
    | ReadSnapshot(id: nat, version: nat)
    | PutSite(id: nat)
    | ReadMeta(id: nat)
    | Txn(id: nat)
    | Prune(id: nat)
    | PruneFails(id: nat)
    | OtherWrite

  /** The site's part of `version_key`; the common prefix does not affect the order (LexPrefix). */
  function VersionKey(version: nat): string {
    Padded(version)
  }

  predicate InRange(key: string, start: string, end: string) {
    !Lex(key, start) && Lex(key, end)
  }

  /** The keys `prune_old_versions` deletes for a committer that saved `current`. */
  predicate PruneHits(current: nat, key: string)
    requires current > MAX_VERSIONS_PER_SITE
  {
    InRange(key, VersionKey(1), VersionKey(current - MAX_VERSIONS_PER_SITE + 1))
  }

  function Pruned(store: map<string, Snapshot>, current: nat): map<string, Snapshot>
    requires current > MAX_VERSIONS_PER_SITE
  {
    map k | k in store && !PruneHits(current, k) :: store[k]
  }

  function Idle(c: Cluster, id: nat): bool {
    id !in c.nodes || c.nodes[id].Saved? || c.nodes[id].Failed?
  }

  function SetNode(c: Cluster, id: nat, n: Node): Cluster {
    c.(nodes := c.nodes[id := n])
  }

  /** The compare-and-swap: the meta key unchanged since it was read, or still absent. */
  predicate CasHolds(meta: Option<Meta>, expected: Option<nat>) {
    match expected
    case None => meta.None?
    case Some(r) => meta.Some? && meta.value.modRevision == r
  }

  function Committed(c: Cluster, id: nat, job: Job, version: nat): Cluster {
    var snapshot := Snapshot(version, job.revision, job.change, job.config);
    SetNode(c.(revision := c.revision + 1,
               meta := Some(Meta(version, c.revision + 1)),
               store := c.store[VersionKey(version) := snapshot],
               commits := c.commits + [Commit(id, job, snapshot)]),
            id, if version > MAX_VERSIONS_PER_SITE then Pruning(job, version) else Saved(job, version))
  }

  function Next(c: Cluster, s: Step): Cluster {
    match s
    case Begin(id, config, change, rev) =>
      if Idle(c, id) then SetNode(c, id, Saving(Job(config, change, rev, None), 0)) else c
    case ReadSnapshot(id, v) =>
      if !Idle(c, id) then c
      else if VersionKey(v) in c.store then SetNode(c, id, Restoring(c.store[VersionKey(v)].config, v))
      else SetNode(c, id, Failed)
    case PutSite(id) =>
      if id !in c.nodes || !c.nodes[id].Restoring? then c
      else
        var r := c.nodes[id];
        SetNode(c.(revision := c.revision + 1), id,
                Saving(Job(r.config, Rollback, c.revision + 1, Some(r.from)), 0))
    case ReadMeta(id) =>
      if id !in c.nodes || !c.nodes[id].Saving? then c
      else
        var n := c.nodes[id];
        SetNode(c, id, match c.meta
                       case Some(m) => HasRead(n.job, n.attempt, m.latest + 1, Some(m.modRevision))
                       case None => HasRead(n.job, n.attempt, 1, None))
    case Txn(id) =>
      if id !in c.nodes || !c.nodes[id].HasRead? then c
      else
        var n := c.nodes[id];
        if CasHolds(c.meta, n.expected) then Committed(c, id, n.job, n.version)
        else SetNode(c, id, if n.attempt + 1 < MAX_CAS_RETRIES then Saving(n.job, n.attempt + 1) else Failed)
    case Prune(id) =>
      if id !in c.nodes || !c.nodes[id].Pruning? || c.nodes[id].version <= MAX_VERSIONS_PER_SITE then c
      else
        var n := c.nodes[id];
        SetNode(c.(store := Pruned(c.store, n.version), revision := c.revision + 1), id, Saved(n.job, n.version))
    case PruneFails(id) =>
      if id !in c.nodes || !c.nodes[id].Pruning? then c
      else SetNode(c, id, Saved(c.nodes[id].job, c.nodes[id].version))
    case OtherWrite => c.(revision := c.revision + 1)
  }

  const EMPTY := Cluster(0, None, map[], [], map[])

  function Run(steps: seq<Step>): Cluster {
    if steps == [] then EMPTY else Next(Run(steps[..|steps| - 1]), steps[|steps| - 1])
  }

  // ------------------------------------------------------------------------------------------
  // Keys.

  const KEY_LIMIT: nat := 10_000_000_000

  lemma {:induction false} LengthMonotone(a: nat, b: nat)
    requires a <= b
    ensures |Digits(a)| <= |Digits(b)|
  {
    if b >= 10 && a >= 10 { LengthMonotone(a / 10, b / 10); }
  }

  lemma {:induction false} PaddedMonotone(a: nat, b: nat)
    requires a <= b
    ensures |Padded(a)| <= |Padded(b)|
  {
    LengthMonotone(a, b);
  }

  lemma {:induction false} TenDigits(n: nat)
    requires n < KEY_LIMIT
    ensures |VersionKey(n)| == 10
  {
    PaddedMonotone(n, KEY_LIMIT - 1);
    assert |Digits(9)| == 1;
    assert |Digits(99)| == 2;
    assert |Digits(999)| == 3;
    assert |Digits(9999)| == 4;
    assert |Digits(99999)| == 5;
    assert |Digits(999999)| == 6;
    assert |Digits(9999999)| == 7;
    assert |Digits(99999999)| == 8;
    assert |Digits(999999999)| == 9;
    assert |Digits(9999999999)| == 10;
  }

  lemma {:induction false} KeysDistinct(a: nat, b: nat)
    ensures VersionKey(a) == VersionKey(b) <==> a == b
  {
    ValueOfPadded(a);
    ValueOfPadded(b);
  }

  lemma {:induction false} KeyOrder(a: nat, b: nat)
    requires |VersionKey(a)| == |VersionKey(b)|
    ensures Lex(VersionKey(a), VersionKey(b)) <==> a < b
  {
    ValueOfPadded(a);
    ValueOfPadded(b);
    LexIsNumeric(VersionKey(a), VersionKey(b));
  }

  /** Below 10^10 the textual range delete is the numeric one. */
  lemma {:induction false} PruneIsNumeric(current: nat, u: nat)
    requires MAX_VERSIONS_PER_SITE < current < KEY_LIMIT && u < KEY_LIMIT
    ensures PruneHits(current, VersionKey(u)) <==> 1 <= u <= current - MAX_VERSIONS_PER_SITE
  {
    TenDigits(u);
    TenDigits(1);
    TenDigits(current - MAX_VERSIONS_PER_SITE + 1);
    KeyOrder(u, 1);
    KeyOrder(u, current - MAX_VERSIONS_PER_SITE + 1);
  }

  // ------------------------------------------------------------------------------------------
  // Every interleaving.

  function LatestOf(meta: Option<Meta>): nat {
    if meta.Some? then meta.value.latest else 0
  }

  function Latest(c: Cluster): nat {
    LatestOf(c.meta)
  }

  ghost predicate Counted(c: Cluster) {
    && Latest(c) == |c.commits|
    && (c.meta.Some? ==> 0 < |c.commits| && c.meta.value.modRevision <= c.revision)
    && forall i | 0 <= i < |c.commits| ::
         var job := c.commits[i].job;
         c.commits[i].snapshot == Snapshot(i + 1, job.revision, job.change, job.config)
  }

  /** The store holds only committed snapshots, unchanged. */
  ghost predicate Stored(c: Cluster) {
    && (forall k | k in c.store :: exists v :: 1 <= v <= |c.commits| && k == VersionKey(v))
    && (forall v | 1 <= v <= |c.commits| && VersionKey(v) in c.store ::
          c.store[VersionKey(v)] == c.commits[v - 1].snapshot)
  }

  /** The newest fifty versions are in the store. */
  ghost predicate Kept(c: Cluster) {
    forall v | 1 <= v <= |c.commits| && v + MAX_VERSIONS_PER_SITE > |c.commits| :: VersionKey(v) in c.store
  }

  ghost predicate Restores(c: Cluster, job: Job) {
    job.restores.Some? ==>
      && job.change == Rollback && 1 <= job.restores.value <= |c.commits|
      && job.config == c.commits[job.restores.value - 1].snapshot.config
  }

  ghost predicate NodeOk(c: Cluster, id: nat, n: Node) {
    match n
    case Restoring(config, v) => 1 <= v <= |c.commits| && config == c.commits[v - 1].snapshot.config
    case Saving(job, _) => Restores(c, job)
    case HasRead(job, _, v, expected) =>
      && Restores(c, job)
      && (expected.None? ==> v == 1)
      && (expected.Some? ==>
            && c.meta.Some? && expected.value <= c.meta.value.modRevision
            && (expected.value == c.meta.value.modRevision ==> v == c.meta.value.latest + 1))
    case Pruning(job, v) =>
      MAX_VERSIONS_PER_SITE < v <= |c.commits| && c.commits[v - 1].node == id && c.commits[v - 1].job == job
    case Saved(job, v) => 1 <= v <= |c.commits| && c.commits[v - 1].node == id && c.commits[v - 1].job == job
    case Failed => true
  }

  ghost predicate Inv(c: Cluster) {
    && Counted(c) && Stored(c)
    && (forall id | id in c.nodes :: NodeOk(c, id, c.nodes[id]))
    && (forall i | 0 <= i < |c.commits| :: Restores(c, c.commits[i].job))
  }

  lemma {:induction false} CommitStores(c: Cluster, id: nat, job: Job)
    requires Counted(c) && Stored(c)
    ensures var d := Committed(c, id, job, |c.commits| + 1); Counted(d) && Stored(d)
  {
    hide VersionKey;
    var n := |c.commits| + 1;
    var d := Committed(c, id, job, n);
    forall v: nat ensures VersionKey(v) == VersionKey(n) <==> v == n { KeysDistinct(v, n); }
    assert forall i | 0 <= i < |c.commits| :: d.commits[i] == c.commits[i];
    StoredGrows(c, d, n);
  }

  lemma {:induction false} StoredGrows(c: Cluster, d: Cluster, n: nat)
    requires Stored(c) && n == |c.commits| + 1 == |d.commits|
    requires forall i | 0 <= i < |c.commits| :: d.commits[i] == c.commits[i]
    requires d.store == c.store[VersionKey(n) := d.commits[n - 1].snapshot]
    requires forall v: nat :: VersionKey(v) == VersionKey(n) <==> v == n
    ensures Stored(d)
  {
    hide VersionKey;
    forall k | k in d.store ensures exists v :: 1 <= v <= |d.commits| && k == VersionKey(v) {
      if k in c.store {
        var v :| 1 <= v <= |c.commits| && k == VersionKey(v);
        assert 1 <= v <= |d.commits|;
      } else {
        assert k == VersionKey(n);
      }
    }
  }

  lemma {:induction false} NodeMoves(c: Cluster, id: nat, n: Node, revision: nat)
    requires Inv(c) && NodeOk(c, id, n) && revision >= c.revision
    ensures Inv(SetNode(c.(revision := revision), id, n))
  {
    hide VersionKey;
    var d := SetNode(c.(revision := revision), id, n);
    forall m | m in d.nodes ensures NodeOk(d, m, d.nodes[m]) {
      assert NodeOk(c, m, d.nodes[m]);
    }
    assert Stored(d);
  }

  lemma {:induction false} CommitKeepsNode(c: Cluster, id: nat, job: Job, other: nat, n: Node)
    requires Counted(c) && NodeOk(c, other, n)
    ensures NodeOk(Committed(c, id, job, |c.commits| + 1), other, n)
  {
  }

  lemma {:induction false} CommitKeeps(c: Cluster, id: nat, job: Job)
    requires Inv(c) && Restores(c, job)
    ensures Inv(Committed(c, id, job, |c.commits| + 1))
  {
    hide VersionKey, Stored, Counted;
    var d := Committed(c, id, job, |c.commits| + 1);
    CommitStores(c, id, job);
    assert forall i | 0 <= i < |c.commits| :: d.commits[i] == c.commits[i];
    forall m | m in d.nodes ensures NodeOk(d, m, d.nodes[m]) {
      if m != id {
        CommitKeepsNode(c, id, job, m, c.nodes[m]);
      }
    }
  }

  lemma {:induction false} TxnKeeps(c: Cluster, id: nat)
    requires Inv(c) && id in c.nodes && c.nodes[id].HasRead?
    ensures Inv(Next(c, Txn(id)))
  {
    hide VersionKey, Stored, Committed;
    var n := c.nodes[id];
    assert NodeOk(c, id, n);
    if CasHolds(c.meta, n.expected) {
      assert n.version == |c.commits| + 1;
      CommitKeeps(c, id, n.job);
    } else {
      NodeMoves(c, id, if n.attempt + 1 < MAX_CAS_RETRIES then Saving(n.job, n.attempt + 1) else Failed, c.revision);
    }
  }

  /** Whatever a prune hits, it only removes. */
  lemma {:induction false} PruneStores(c: Cluster, v: nat)
    requires Stored(c) && MAX_VERSIONS_PER_SITE < v
    ensures Stored(c.(store := Pruned(c.store, v)))
  {
    hide VersionKey, PruneHits;
  }

  lemma {:induction false} PruneKeeps(c: Cluster, id: nat)
    requires Inv(c)
    ensures Inv(Next(c, Prune(id)))
  {
    hide VersionKey, Pruned, Stored;
    if id in c.nodes && c.nodes[id].Pruning? {
      var n := c.nodes[id];
      assert NodeOk(c, id, n);
      PruneStores(c, n.version);
      var pruned := c.(store := Pruned(c.store, n.version));
      forall m | m in pruned.nodes ensures NodeOk(pruned, m, pruned.nodes[m]) {
        assert NodeOk(c, m, c.nodes[m]);
      }
      NodeMoves(pruned, id, Saved(n.job, n.version), c.revision + 1);
    }
  }

  lemma {:induction false} StoredUnder(c: Cluster, v: nat)
    requires Stored(c) && VersionKey(v) in c.store
    ensures 1 <= v <= |c.commits| && c.store[VersionKey(v)] == c.commits[v - 1].snapshot
  {
    hide VersionKey;
    var u :| 1 <= u <= |c.commits| && VersionKey(v) == VersionKey(u);
    KeysDistinct(u, v);
  }

  lemma {:induction false} ReadSnapshotKeeps(c: Cluster, id: nat, v: nat)
    requires Inv(c)
    ensures Inv(Next(c, ReadSnapshot(id, v)))
  {
    hide VersionKey, Stored;
    if Idle(c, id) {
      if VersionKey(v) in c.store {
        StoredUnder(c, v);
        NodeMoves(c, id, Restoring(c.store[VersionKey(v)].config, v), c.revision);
      } else {
        NodeMoves(c, id, Failed, c.revision);
      }
    }
  }

  lemma {:induction false} NextKeeps(c: Cluster, s: Step)
    requires Inv(c)
    ensures Inv(Next(c, s))
  {
    if s.OtherWrite? {
      OtherWriteKeeps(c);
    } else if s.Txn? && s.id in c.nodes && c.nodes[s.id].HasRead? {
      TxnKeeps(c, s.id);
    } else if s.Prune? {
      PruneKeeps(c, s.id);
    } else if s.ReadSnapshot? {
      ReadSnapshotKeeps(c, s.id, s.version);
    } else {
      LocalKeeps(c, s);
    }
  }

  lemma {:induction false} OtherWriteKeeps(c: Cluster)
    requires Inv(c)
    ensures Inv(Next(c, OtherWrite))
  {
  }

  /** Steps that change a node and at most the revision counter. */
  lemma {:induction false} LocalKeeps(c: Cluster, s: Step)
    requires Inv(c) && (s.Begin? || s.PutSite? || s.ReadMeta? || s.PruneFails? || s.Txn?)
    requires s.Txn? ==> s.id !in c.nodes || !c.nodes[s.id].HasRead?
    ensures Inv(Next(c, s))
  {
    hide VersionKey, Stored;
    if Next(c, s) != c {
      var d := Next(c, s);
      if s.id in c.nodes { assert NodeOk(c, s.id, c.nodes[s.id]); }
      assert NodeOk(c, s.id, d.nodes[s.id]);
      NodeMoves(c, s.id, d.nodes[s.id], d.revision);
    }
  }

  lemma {:induction false} CommitsGrow(c: Cluster, s: Step)
    ensures c.commits <= Next(c, s).commits
  {
  }

  /** The invariant of the counter, the store and every node's progress, without any bound. */
  lemma {:induction false} EveryRun(steps: seq<Step>)
    ensures Inv(Run(steps))
  {
    hide Next, VersionKey;
    if steps != [] {
      EveryRun(steps[..|steps| - 1]);
      NextKeeps(Run(steps[..|steps| - 1]), steps[|steps| - 1]);
    }
  }

  /**
   For every interleaving of any number of nodes: the version counter equals the number of commits,
   the versions committed are 1, 2, .., latest in commit order, and two nodes never return the same
   version.
   */
  lemma {:induction false} VersionsAreExact(steps: seq<Step>, a: nat, b: nat)
    ensures var c := Run(steps);
      && Latest(c) == |c.commits|
      && (forall i | 0 <= i < |c.commits| :: c.commits[i].snapshot.version == i + 1)
      && (a in c.nodes && b in c.nodes && a != b && c.nodes[a].Saved? && c.nodes[b].Saved?
          ==> c.nodes[a].version != c.nodes[b].version)
  {
    hide Run, VersionKey;
    EveryRun(steps);
    var c := Run(steps);
    if a in c.nodes && b in c.nodes {
      assert NodeOk(c, a, c.nodes[a]) && NodeOk(c, b, c.nodes[b]);
    }
  }

  /** For every interleaving, what is stored under a version is the snapshot its committer built. */
  lemma {:induction false} StoredIsCommitted(steps: seq<Step>, v: nat)
    requires VersionKey(v) in Run(steps).store
    ensures var c := Run(steps);
      && 1 <= v <= |c.commits|
      && c.store[VersionKey(v)] == Snapshot(v, c.commits[v - 1].job.revision, c.commits[v - 1].job.change,
                                            c.commits[v - 1].job.config)
  {
    hide Run, VersionKey;
    EveryRun(steps);
    StoredUnder(Run(steps), v);
  }

  lemma {:induction false} PruneCuts(n: nat, v: nat)
    requires MAX_VERSIONS_PER_SITE < v <= n < KEY_LIMIT
    ensures forall u | 1 <= u <= n :: PruneHits(v, VersionKey(u)) <==> u + MAX_VERSIONS_PER_SITE <= v
  {
    hide VersionKey, PruneHits;
    forall u | 1 <= u <= n ensures PruneHits(v, VersionKey(u)) <==> u + MAX_VERSIONS_PER_SITE <= v {
      PruneIsNumeric(v, u);
    }
  }

  lemma {:induction false} KeptByPrune(c: Cluster, v: nat)
    requires Kept(c) && MAX_VERSIONS_PER_SITE < v <= |c.commits| < KEY_LIMIT
    ensures Kept(c.(store := Pruned(c.store, v)))
  {
    hide VersionKey, PruneHits;
    PruneCuts(|c.commits|, v);
  }

  lemma {:induction false} KeptByNext(c: Cluster, s: Step)
    requires Inv(c) && Kept(c) && |c.commits| < KEY_LIMIT
    ensures Kept(Next(c, s))
  {
    hide VersionKey, Pruned;
    if s.Prune? && s.id in c.nodes && c.nodes[s.id].Pruning? {
      assert NodeOk(c, s.id, c.nodes[s.id]);
      KeptByPrune(c, c.nodes[s.id].version);
    } else if s.Txn? && s.id in c.nodes && c.nodes[s.id].HasRead? && CasHolds(c.meta, c.nodes[s.id].expected) {
      assert NodeOk(c, s.id, c.nodes[s.id]);
      assert c.nodes[s.id].version == |c.commits| + 1;
    }
  }

  /**
   For every interleaving with fewer than 10^10 commits, slow pruners with stale versions included:
   each of the newest fifty versions is stored.
   */
  lemma {:induction false} NewestAreKept(steps: seq<Step>)
    requires |Run(steps).commits| < KEY_LIMIT
    ensures Kept(Run(steps))
  {
    hide Next, VersionKey, Kept, Inv;
    if steps == [] {
      KeptAtFirst();
    } else {
      var before := Run(steps[..|steps| - 1]);
      CommitsGrow(before, steps[|steps| - 1]);
      NewestAreKept(steps[..|steps| - 1]);
      EveryRun(steps[..|steps| - 1]);
      KeptByNext(before, steps[|steps| - 1]);
    }
  }

  lemma {:induction false} KeptAtFirst()
    ensures Kept(EMPTY)
  {
  }

  /** A prune by the newest committer leaves exactly the newest fifty versions. */
  lemma {:induction false} NewestPrunerLeavesFifty(steps: seq<Step>, id: nat)
    requires var c := Run(steps);
      |c.commits| < KEY_LIMIT && id in c.nodes && c.nodes[id].Pruning? && c.nodes[id].version == Latest(c)
    ensures var c := Run(steps); var n := Latest(c);
      Next(c, Prune(id)).store.Keys
      == set v: nat | n - MAX_VERSIONS_PER_SITE < v <= n :: VersionKey(v)
  {
    hide Run, VersionKey, Pruned;
    EveryRun(steps);
    NewestAreKept(steps);
    var c := Run(steps);
    assert NodeOk(c, id, c.nodes[id]);
    PrunedExactly(c);
  }

  lemma {:induction false} PrunedExactly(c: Cluster)
    requires Stored(c) && Kept(c) && MAX_VERSIONS_PER_SITE < |c.commits| < KEY_LIMIT
    ensures var n := |c.commits|;
      Pruned(c.store, n).Keys == set v: nat | n - MAX_VERSIONS_PER_SITE < v <= n :: VersionKey(v)
  {
    hide VersionKey, PruneHits;
    var n := |c.commits|;
    PruneCuts(n, n);
    forall k | k in Pruned(c.store, n).Keys
      ensures exists v: nat :: n - MAX_VERSIONS_PER_SITE < v <= n && k == VersionKey(v)
    {
      var v :| 1 <= v <= n && k == VersionKey(v);
    }
  }

  /** A committed rollback carries the configuration of the version it named. */
  lemma {:induction false} RollbackRestores(steps: seq<Step>, i: nat)
    requires i < |Run(steps).commits| && Run(steps).commits[i].job.restores.Some?
    ensures var c := Run(steps); var from := c.commits[i].job.restores.value;
      && 1 <= from <= |c.commits|
      && c.commits[i].snapshot.change == Rollback
      && c.commits[i].snapshot.config == c.commits[from - 1].snapshot.config
  {
    hide Run, VersionKey;
    EveryRun(steps);
    assert Restores(Run(steps), Run(steps).commits[i].job);
  }

  // ------------------------------------------------------------------------------------------
  // Exactly when the textual range spares the newest versions.

  function Pow10(k: nat): (r: nat)
    ensures r > 0
  {
    if k == 0 then 1 else 10 * Pow10(k - 1)
  }

  lemma {:induction false} PowMonotone(a: nat, b: nat)
    requires a <= b
    ensures Pow10(a) <= Pow10(b)
  {
    if a < b { PowMonotone(a, b - 1); }
  }

  /** The first digit bounds the value from both sides. */
  lemma {:induction false} ValueBounds(s: string)
    requires AllDigits(s) && s != []
    ensures DigitValue(s[0]) * Pow10(|s| - 1) <= Value(s) < (DigitValue(s[0]) + 1) * Pow10(|s| - 1)
  {
    var front, d := s[..|s| - 1], DigitValue(s[0]);
    if |s| == 1 {
      assert front == [] && Value(front) == 0;
    } else {
      ValueBounds(front);
      OneMoreDigit(d, Pow10(|s| - 2), Value(front), DigitValue(s[|s| - 1]));
    }
  }

  lemma {:induction false} OneMoreDigit(d: nat, p: nat, v: nat, c: nat)
    requires d * p <= v < (d + 1) * p && c < 10
    ensures d * (10 * p) <= 10 * v + c < (d + 1) * (10 * p)
  {
  }

  lemma {:induction false} NoLeadingZero(n: nat)
    requires n > 0
    ensures Digits(n)[0] != '0'
  {
    if n >= 10 { NoLeadingZero(n / 10); }
  }

  lemma {:induction false} DigitsOfPow(k: nat)
    ensures Digits(Pow10(k)) == ['1'] + Zeros(k)
  {
    if k > 0 {
      DigitsOfPow(k - 1);
      assert Digits(Pow10(k)) == Digits(Pow10(k - 1)) + ['0'];
      assert Zeros(k) == Zeros(k - 1) + ['0'];
    }
  }

  /** Where the newest fifty keys differ in length, the range swallows a power of ten among them. */
  lemma {:induction false} StraddleLosesNewest(v: nat) returns (u: nat)
    requires v > MAX_VERSIONS_PER_SITE && |VersionKey(v - 49)| != |VersionKey(v)|
    ensures v - MAX_VERSIONS_PER_SITE < u <= v && PruneHits(v, VersionKey(u))
  {
    hide VersionKey, Lex;
    var size := |VersionKey(v - 49)|;
    PaddedLonger(v - 49, v);
    u := Pow10(size);
    KeyOfPow(size);
    LongerIsBigger(v, size);
    LeadIsNine(v - 49, size);
    FirstCharDecides(VersionKey(u), VersionKey(v - 49));
    KeyOfOne();
    FirstCharDecides(VersionKey(1), VersionKey(u));
    NotBothLex(VersionKey(1), VersionKey(u));
  }

  lemma {:induction false} PaddedLonger(a: nat, b: nat)
    requires a <= b
    ensures 10 <= |VersionKey(a)| <= |VersionKey(b)|
  {
    PaddedMonotone(a, b);
  }

  lemma {:induction false} KeyOfPow(k: nat)
    requires k >= 10
    ensures VersionKey(Pow10(k)) == ['1'] + Zeros(k)
  {
    DigitsOfPow(k);
  }

  lemma {:induction false} KeyOfOne()
    ensures VersionKey(1) != [] && VersionKey(1)[0] == '0'
  {
  }

  lemma {:induction false} LongerIsBigger(v: nat, size: nat)
    requires v > 0 && 10 <= size < |VersionKey(v)|
    ensures v >= Pow10(size)
  {
    var key := VersionKey(v);
    assert key == Digits(v);
    ValueOfPadded(v);
    ValueBounds(key);
    NoLeadingZero(v);
    PowMonotone(size, |key| - 1);
    Scale(DigitValue(key[0]), 1, Pow10(|key| - 1));
  }

  lemma {:induction false} LeadIsNine(a: nat, size: nat)
    requires size == |VersionKey(a)| && a + 49 >= Pow10(size)
    ensures a < Pow10(size) && VersionKey(a)[0] == '9'
  {
    var key := VersionKey(a);
    var d, p := DigitValue(key[0]), Pow10(size - 1);
    ValueOfPadded(a);
    ValueBounds(key);
    PowMonotone(2, size - 1);
    assert Pow10(2) == 100;
    Scale(10, d + 1, p);
    if d <= 8 {
      Scale(9, d + 1, p);
      assert false;
    }
  }

  lemma {:induction false} Scale(k: nat, j: nat, p: nat)
    requires j <= k
    ensures j * p <= k * p
  {
  }

  lemma {:induction false} FirstCharDecides(a: string, b: string)
    requires a != [] && b != [] && a[0] < b[0]
    ensures Lex(a, b)
  {
  }

  lemma {:induction false} NotBothLex(a: string, b: string)
    requires Lex(a, b)
    ensures !Lex(b, a)
  {
    if a != [] && a[0] == b[0] { NotBothLex(a[1..], b[1..]); }
  }

  /**
   A prune for version v spares all of the newest fifty versions if and only if their keys are all
   of one length; with ten-digit padding this first fails at v = 10^10, where the range would
   delete version 10^10 itself.
   */
  lemma {:induction false} PruneSparesNewestIff(v: nat)
    requires v > MAX_VERSIONS_PER_SITE
    ensures (forall u: nat | v - MAX_VERSIONS_PER_SITE < u <= v :: !PruneHits(v, VersionKey(u)))
       <==> |VersionKey(v - 49)| == |VersionKey(v)|
  {
    if |VersionKey(v - 49)| == |VersionKey(v)| {
      forall u: nat | v - MAX_VERSIONS_PER_SITE < u <= v ensures !PruneHits(v, VersionKey(u)) {
        PaddedMonotone(v - 49, u);
        PaddedMonotone(u, v);
        KeyOrder(u, v - 49);
      }
    } else {
      var u := StraddleLosesNewest(v);
    }
  }

  // ------------------------------------------------------------------------------------------
  // The bound on whole runs.

  /** One undisturbed save by node 0 whose prune does not get through. */
  function Save(): (r: seq<Step>)
    ensures |r| == 4
  {
    [Begin(0, [], Updated, 0), ReadMeta(0), Txn(0), PruneFails(0)]
  }

  function Saves(n: nat): seq<Step> {
    if n == 0 then [] else Saves(n - 1) + Save()
  }

  /** n commits, nothing pruned, and node 0 free. */
  ghost predicate Unpruned(c: Cluster, n: nat) {
    |c.commits| == n && Latest(c) == n && Idle(c, 0) && forall v | 1 <= v <= n :: VersionKey(v) in c.store
  }

  lemma {:induction false} RunStep(steps: seq<Step>, s: Step)
    ensures Run(steps + [s]) == Next(Run(steps), s)
  {
    assert (steps + [s])[..|steps|] == steps;
  }

  lemma {:induction false} RunFour(steps: seq<Step>, a: Step, b: Step, c: Step, d: Step)
    ensures Run(steps + [a, b, c, d]) == Next(Next(Next(Next(Run(steps), a), b), c), d)
  {
    hide Run, Next;
    RunStep(steps, a);
    RunStep(steps + [a], b);
    RunStep(steps + [a] + [b], c);
    RunStep(steps + [a] + [b] + [c], d);
    assert steps + [a] + [b] + [c] + [d] == steps + [a, b, c, d];
  }

  /** Three steps take a free node from nothing to a commit. */
  lemma {:induction false} SaveCommits(c: Cluster)
    requires Idle(c, 0)
    ensures var d := Next(Next(Next(c, Begin(0, [], Updated, 0)), ReadMeta(0)), Txn(0));
            && |d.commits| == |c.commits| + 1 && Latest(d) == Latest(c) + 1
            && d.store == c.store[VersionKey(Latest(c) + 1) := Snapshot(Latest(c) + 1, 0, Updated, [])]
            && 0 in d.nodes
            && d.nodes[0] == (if Latest(d) > MAX_VERSIONS_PER_SITE then Pruning(Job([], Updated, 0, None), Latest(d))
                              else Saved(Job([], Updated, 0, None), Latest(d)))
  {
    hide VersionKey;
  }

  lemma {:induction false} SavesCommit(n: nat)
    ensures Unpruned(Run(Saves(n)), n)
  {
    hide VersionKey, Run;
    if n == 0 {
      NothingSaved();
    } else {
      SavesCommit(n - 1);
      var c := Run(Saves(n - 1));
      SaveCommits(c);
      RunFour(Saves(n - 1), Begin(0, [], Updated, 0), ReadMeta(0), Txn(0), PruneFails(0));
    }
  }

  lemma {:induction false} NothingSaved()
    ensures Unpruned(Run([]), 0)
  {
  }

  /** The prune of version n takes one of the newest fifty with it if their keys differ in length. */
  lemma {:induction false} StraddlingPruneLoses(n: nat)
    requires n > MAX_VERSIONS_PER_SITE && |VersionKey(n - 49)| != |VersionKey(n)|
    ensures var steps := Saves(n - 1) + [Begin(0, [], Updated, 0), ReadMeta(0), Txn(0), Prune(0)];
            |Run(steps).commits| == n && !Kept(Run(steps))
  {
    hide VersionKey, Run, PruneHits;
    SavesCommit(n - 1);
    var c := Run(Saves(n - 1));
    SaveCommits(c);
    RunFour(Saves(n - 1), Begin(0, [], Updated, 0), ReadMeta(0), Txn(0), Prune(0));
    var u := StraddleLosesNewest(n);
    var steps := Saves(n - 1) + [Begin(0, [], Updated, 0), ReadMeta(0), Txn(0), Prune(0)];
    assert VersionKey(u) !in Run(steps).store;
  }

  lemma {:induction false} TenBillion()
    ensures Pow10(10) == KEY_LIMIT
  {
  }

  /** Every run of up to n commits keeps its newest fifty versions if and only if n is below 10^10. */
  lemma {:induction false} NewestAreKeptIff(n: nat)
    ensures (forall steps | |Run(steps).commits| <= n :: Kept(Run(steps))) <==> n < KEY_LIMIT
  {
    hide Run, VersionKey, Kept;
    if n < KEY_LIMIT {
      forall steps | |Run(steps).commits| <= n ensures Kept(Run(steps)) { NewestAreKept(steps); }
    } else {
      TenBillion();
      KeyOfPow(10);
      TenDigits(KEY_LIMIT - 49);
      StraddlingPruneLoses(KEY_LIMIT);
    }
  }

  // ------------------------------------------------------------------------------------------
  // The full keys: a range delete never leaves its site.

  function SitePrefix(prefix: string, site: string): string {
    prefix + "/config_history/" + site + "/v/"
  }

  function FullKey(prefix: string, site: string, version: nat): string {
    SitePrefix(prefix, site) + VersionKey(version)
  }

  lemma {:induction false} BetweenSharesPrefix(p: string, a: string, b: string, k: string)
    requires !Lex(k, p + a) && Lex(k, p + b)
    ensures p <= k
  {
    if p != [] {
      assert (p + a)[1..] == p[1..] + a && (p + b)[1..] == p[1..] + b;
      if k != [] {
        BetweenSharesPrefix(p[1..], a, b, k[1..]);
        assert k == [k[0]] + k[1..] && p == [p[0]] + p[1..];
      }
    }
  }

  /** Pruning one site cannot delete a version key of another, slash-free site id. */
  lemma {:induction false} RangeStaysInSite(prefix: string, site: string, other: string, current: nat, v: nat)
    requires '/' !in site && '/' !in other && current > MAX_VERSIONS_PER_SITE
    requires InRange(FullKey(prefix, other, v), FullKey(prefix, site, 1),
                     FullKey(prefix, site, current - MAX_VERSIONS_PER_SITE + 1))
    ensures other == site && PruneHits(current, VersionKey(v))
  {
    hide VersionKey, Lex;
    var p, key := SitePrefix(prefix, site), FullKey(prefix, other, v);
    var cut := current - MAX_VERSIONS_PER_SITE + 1;
    BetweenSharesPrefix(p, VersionKey(1), VersionKey(cut), key);
    var n := |prefix + "/config_history/"|;
    assert p[n..] == site + "/v/" && key[n..] == other + "/v/" + VersionKey(v);
    assert site + "/v/" <= other + "/v/" + VersionKey(v);
    SamePrefixSameSite(site, other, VersionKey(v));
    LexPrefix(p, VersionKey(v), VersionKey(1));
    LexPrefix(p, VersionKey(v), VersionKey(cut));
  }

  lemma {:induction false} SamePrefixSameSite(site: string, other: string, rest: string)
    requires '/' !in site && '/' !in other && site + "/v/" <= other + "/v/" + rest
    ensures site == other
  {
    var a, b := site + "/v/", other + "/v/" + rest;
    assert forall i | 0 <= i < |a| :: a[i] == b[i];
    assert a[|site|] == '/' && b[|other|] == '/';
    assert |site| == |other| ==> a[..|site|] == site && b[..|site|] == other;
  }
}
