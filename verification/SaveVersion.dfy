/**
 The retry loop of `save_version` as one node runs it, against rivals that commit versions of the
 same site between its read and its transaction.
 */
module SaveVersion {
  import opened Wrappers
  import opened ConfigHistory

  function SnapshotOf(version: nat, job: Job): Snapshot {
    Snapshot(version, job.revision, job.change, job.config)
  }

  /** How many rival commits land before the first attempt without any. */
  function Overtakers(rivals: seq<seq<Job>>): nat {
    if rivals == [] || rivals[0] == [] then 0 else |rivals[0]| + Overtakers(rivals[1..])
  }

  class EtcdSite {
    var revision: nat
    var meta: Option<Meta>
    var store: map<string, Snapshot>

    ghost predicate Valid()
      reads this
    {
      meta.Some? ==> meta.value.modRevision <= revision
    }

    constructor ()
      ensures Valid() && meta == None && store == map[]
    {
      revision, meta, store := 0, None, map[];
    }

    /** Compare the counter's revision, then write counter and snapshot, all or nothing. */
    method Transact(expected: Option<nat>, version: nat, job: Job) returns (succeeded: bool)
      requires Valid()
      modifies this
      ensures Valid()
      ensures succeeded <==> CasHolds(old(meta), expected)
      ensures !succeeded ==> unchanged(this)
      ensures succeeded ==>
                && meta == Some(Meta(version, revision)) && revision == old(revision) + 1
                && store == old(store)[VersionKey(version) := SnapshotOf(version, job)]
    {
      succeeded := match expected
        case None => meta.None?
        case Some(r) => meta.Some? && meta.value.modRevision == r;
      if succeeded {
        revision := revision + 1;
        meta := Some(Meta(version, revision));
        store := store[VersionKey(version) := SnapshotOf(version, job)];
      }
    }

    /** Other nodes' commits, each of which reads and transacts undisturbed. */
    method RivalsCommit(jobs: seq<Job>)
      requires Valid()
      modifies this
      ensures Valid() && revision >= old(revision)
      ensures LatestOf(meta) == LatestOf(old(meta)) + |jobs|
      ensures if jobs == [] then meta == old(meta) && store == old(store)
              else meta.Some? && meta.value.modRevision > old(revision)
    {
      for i := 0 to |jobs|
        invariant Valid() && revision >= old(revision)
        invariant LatestOf(meta) == LatestOf(old(meta)) + i
        invariant if i == 0 then meta == old(meta) && store == old(store)
                  else meta.Some? && meta.value.modRevision > old(revision)
      {
        var expected := if meta.Some? then Some(meta.value.modRevision) else None;
        var done := Transact(expected, LatestOf(meta) + 1, jobs[i]);
      }
    }

    /**
     `save_version`.  It fails exactly if rivals overtook every one of its attempts; otherwise it
     returns the next number after all of theirs, which is then the latest, and below 10^10 its own
     snapshot is stored under it and no version fifty or more below it is stored any longer.
     */
    method SaveVersion(job: Job, rivals: seq<seq<Job>>) returns (saved: Option<nat>)
      requires Valid() && |rivals| == MAX_CAS_RETRIES
      modifies this
      ensures Valid()
      ensures saved.None? <==> forall k | 0 <= k < MAX_CAS_RETRIES :: rivals[k] != []
      ensures LatestOf(meta) == LatestOf(old(meta)) + Overtakers(rivals) + if saved.Some? then 1 else 0
      ensures saved.Some? ==> saved.value == LatestOf(meta)
      ensures saved.Some? && saved.value < KEY_LIMIT ==>
                VersionKey(saved.value) in store && store[VersionKey(saved.value)] == SnapshotOf(saved.value, job)
      ensures saved.Some? && saved.value < KEY_LIMIT ==>
                forall u: nat | 1 <= u && u + MAX_VERSIONS_PER_SITE <= saved.value :: VersionKey(u) !in store
    {
      hide VersionKey, Pruned, PruneHits;
      for attempt := 0 to MAX_CAS_RETRIES
        invariant Valid() && forall k | 0 <= k < attempt :: rivals[k] != []
        invariant LatestOf(meta) + Overtakers(rivals[attempt..]) == LatestOf(old(meta)) + Overtakers(rivals)
      {
        var (version, expected) :=
          if meta.Some? then (meta.value.latest + 1, Some(meta.value.modRevision)) else (1, None);
        RivalsCommit(rivals[attempt]);
        var succeeded := Transact(expected, version, job);
        if succeeded {
          if version > MAX_VERSIONS_PER_SITE {
            PruneOldVersions(version);
          }
          return Some(version);
        }
        assert rivals[attempt..][1..] == rivals[attempt + 1..];
      }
      saved := None;
    }

    /** `prune_old_versions`: one range delete, which below 10^10 spares the version just saved. */
    method PruneOldVersions(current: nat)
      requires Valid() && current > MAX_VERSIONS_PER_SITE
      modifies this
      ensures Valid() && meta == old(meta) && store == Pruned(old(store), current)
      ensures current < KEY_LIMIT && VersionKey(current) in old(store) ==>
                VersionKey(current) in store && store[VersionKey(current)] == old(store)[VersionKey(current)]
      ensures current < KEY_LIMIT ==>
                forall u: nat | 1 <= u < KEY_LIMIT ::
                  VersionKey(u) in store <==> VersionKey(u) in old(store) && current < u + MAX_VERSIONS_PER_SITE
    {
      hide VersionKey, PruneHits;
      if current < KEY_LIMIT {
        PruneIsNumeric(current, current);
        forall u: nat | 1 <= u < KEY_LIMIT
          ensures PruneHits(current, VersionKey(u)) <==> u + MAX_VERSIONS_PER_SITE <= current
        {
          PruneIsNumeric(current, u);
        }
      }
      store := Pruned(store, current);
      revision := revision + 1;
    }
  }
}
