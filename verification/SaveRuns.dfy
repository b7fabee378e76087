/**
 What becomes of a save among others: a transaction goes through if and only if nobody committed since
 its counter was read, and a save is given up with its fifth transaction that does not.
 */
module SaveRuns {
  import opened Wrappers
  import opened ConfigHistory

  ghost predicate Reads(c: Cluster, id: nat) { id in c.nodes && c.nodes[id].HasRead? }

  /** Somebody committed since the node read the counter. */
  ghost predicate Overtaken(c: Cluster, id: nat) {
    Reads(c, id) && |c.commits| + 1 > c.nodes[id].version
  }

  /** How many transactions in a row of the node's present save were overtaken. */
  ghost function Losses(steps: seq<Step>, id: nat): nat {
    if steps == [] then 0
    else
      var front, s := steps[..|steps| - 1], steps[|steps| - 1];
      var c := Run(front);
      if s.Txn? && s.id == id && Overtaken(c, id) then Losses(front, id) + 1
      else if s.Begin? && s.id == id && Idle(c, id) then 0
      else if s.PutSite? && s.id == id && id in c.nodes && c.nodes[id].Restoring? then 0
      else Losses(front, id)
  }

  /** The number a node holds tells whether its transaction will go through. */
  ghost predicate Timely(c: Cluster, id: nat) {
    Reads(c, id) ==>
      && c.nodes[id].version <= |c.commits| + 1
      && (CasHolds(c.meta, c.nodes[id].expected) <==> c.nodes[id].version == |c.commits| + 1)
      && (c.nodes[id].expected.Some? ==> c.nodes[id].expected.value <= c.revision)
  }

  lemma {:induction false} StepStaysTimely(c: Cluster, s: Step, id: nat)
    requires Counted(c) && Timely(c, id)
    requires s.Txn? && Reads(c, s.id) && CasHolds(c.meta, c.nodes[s.id].expected) ==>
               c.nodes[s.id].version == |c.commits| + 1
    ensures Timely(Next(c, s), id)
  {
    hide VersionKey, Pruned;
  }

  lemma {:induction false} EveryRunIsTimely(steps: seq<Step>)
    ensures forall id :: Timely(Run(steps), id)
  {
    hide VersionKey, Pruned, Next, Timely, Stored;
    if steps == [] {
      forall id ensures Timely(EMPTY, id) { NobodyReads(id); }
    } else {
      var front, s := steps[..|steps| - 1], steps[|steps| - 1];
      EveryRunIsTimely(front);
      EveryRun(front);
      forall id ensures Timely(Run(steps), id) {
        if s.Txn? { InTime(Run(front), s.id); }
        StepStaysTimely(Run(front), s, id);
      }
    }
  }

  lemma {:induction false} NobodyReads(id: nat)
    ensures Timely(EMPTY, id)
  {
  }

  lemma {:induction false} InTime(c: Cluster, id: nat)
    requires Timely(c, id)
    ensures Reads(c, id) && CasHolds(c.meta, c.nodes[id].expected) ==> c.nodes[id].version == |c.commits| + 1
  {
  }

  /** Between attempts the node knows how many it has lost, fewer than five. */
  ghost predicate Tallied(c: Cluster, id: nat, losses: nat) {
    id in c.nodes && (c.nodes[id].Saving? || c.nodes[id].HasRead?) ==>
      c.nodes[id].attempt == losses && losses < 5
  }

  lemma {:induction false} StepTallies(c: Cluster, s: Step, id: nat, losses: nat)
    requires Tallied(c, id, losses) && Timely(c, id)
    ensures
      var after := if s.Txn? && s.id == id && Overtaken(c, id) then losses + 1
                   else if s.Begin? && s.id == id && Idle(c, id) then 0
                   else if s.PutSite? && s.id == id && id in c.nodes && c.nodes[id].Restoring? then 0
                   else losses;
      Tallied(Next(c, s), id, after)
  {
    hide VersionKey, Pruned;
  }

  lemma {:induction false} EveryRunTallies(steps: seq<Step>, id: nat)
    ensures Tallied(Run(steps), id, Losses(steps, id))
  {
    hide Next, Tallied, Timely, Overtaken;
    if steps == [] {
      NothingTallied(id);
    } else {
      var front, s := steps[..|steps| - 1], steps[|steps| - 1];
      EveryRunTallies(front, id);
      EveryRunIsTimely(front);
      StepTallies(Run(front), s, id, Losses(front, id));
    }
  }

  lemma {:induction false} NothingTallied(id: nat)
    ensures Tallied(EMPTY, id, 0)
  {
  }

  /**
   In every interleaving, a transaction whose counter was not overtaken commits the job under the next
   number; one that was overtaken commits nothing, and the save starts over, or is given up if this is
   its fifth in a row.
   */
  lemma {:induction false} TransactionOutcome(steps: seq<Step>, id: nat)
    requires Reads(Run(steps), id)
    ensures
      var c := Run(steps);
      var n, d := c.nodes[id], Next(c, Txn(id));
      var v := |c.commits| + 1;
      if !Overtaken(c, id) then
        && d.commits == c.commits + [Commit(id, n.job, Snapshot(v, n.job.revision, n.job.change, n.job.config))]
        && d.nodes[id] == (if v > 50 then Pruning(n.job, v) else Saved(n.job, v))
      else
        && d.commits == c.commits && d.store == c.store && d.meta == c.meta
        && d.nodes[id] == (if Losses(steps, id) == 4 then Failed else Saving(n.job, Losses(steps, id) + 1))
  {
    hide Run, VersionKey;
    EveryRunIsTimely(steps);
    EveryRunTallies(steps, id);
    EveryRun(steps);
    assert Timely(Run(steps), id);
  }

  predicate HasJob(n: Node) { n.Saving? || n.HasRead? || n.Pruning? || n.Saved? }

  /** Since step k, the node works on what it was asked for there. */
  ghost predicate AskedAt(steps: seq<Step>, k: nat, id: nat, job: Job) {
    k < |steps| && steps[k] == Begin(id, job.config, job.change, job.revision)
    && (forall j | k < j < |steps| :: steps[j].Begin? && steps[j].id == id ==> !Idle(Run(steps[..j]), id))
  }

  /** What a node saves is what it was last asked to save, unless it restores an earlier version. */
  lemma {:induction false} SavesWhatWasAsked(steps: seq<Step>, id: nat) returns (k: nat)
    requires var c := Run(steps); id in c.nodes && HasJob(c.nodes[id]) && c.nodes[id].job.restores.None?
    ensures AskedAt(steps, k, id, Run(steps).nodes[id].job)
  {
    hide VersionKey, Pruned, Committed;
    if steps == [] {
      assert false;
    } else {
      var n := |steps| - 1;
      var front, s := steps[..n], steps[n];
      var c := Run(front);
      if s.Begin? && s.id == id && Idle(c, id) {
        k := n;
      } else {
        JobStays(c, s, id);
        k := SavesWhatWasAsked(front, id);
        forall j | k < j < |steps| && steps[j].Begin? && steps[j].id == id ensures !Idle(Run(steps[..j]), id) {
          if j < n {
            assert front[..j] == steps[..j] && front[j] == steps[j];
          }
        }
      }
    }
  }

  lemma {:induction false} JobStays(c: Cluster, s: Step, id: nat)
    requires var d := Next(c, s); id in d.nodes && HasJob(d.nodes[id]) && d.nodes[id].job.restores.None?
    requires !(s.Begin? && s.id == id && Idle(c, id))
    ensures id in c.nodes && HasJob(c.nodes[id]) && c.nodes[id].job == Next(c, s).nodes[id].job
  {
    hide VersionKey, Pruned;
  }

  /** At step k the node wrote the site back, and the job carries what it read and that write's revision. */
  ghost predicate WrittenBackAt(steps: seq<Step>, k: nat, id: nat, job: Job) {
    && k < |steps| && steps[k] == PutSite(id)
    && var c := Run(steps[..k]);
       && id in c.nodes && c.nodes[id].Restoring? && job.restores == Some(c.nodes[id].from)
       && job.config == c.nodes[id].config && job.revision == c.revision + 1
  }

  /** A rollback saves the configuration it put back, under the revision at which it put it back. */
  lemma {:induction false} RollbackSavesItsWrite(steps: seq<Step>, id: nat) returns (k: nat)
    requires var c := Run(steps); id in c.nodes && HasJob(c.nodes[id]) && c.nodes[id].job.restores.Some?
    ensures WrittenBackAt(steps, k, id, Run(steps).nodes[id].job)
  {
    hide VersionKey, Pruned, Committed, Next;
    if steps == [] {
      assert false;
    } else {
      var n := |steps| - 1;
      var front, s := steps[..n], steps[n];
      var c := Run(front);
      RestoringJob(c, s, id);
      if s == PutSite(id) && id in c.nodes && c.nodes[id].Restoring? {
        k := n;
      } else {
        k := RollbackSavesItsWrite(front, id);
        assert front[..k] == steps[..k];
      }
    }
  }

  lemma {:induction false} RestoringJob(c: Cluster, s: Step, id: nat)
    requires var d := Next(c, s); id in d.nodes && HasJob(d.nodes[id]) && d.nodes[id].job.restores.Some?
    ensures var job := Next(c, s).nodes[id].job;
      if s == PutSite(id) && id in c.nodes && c.nodes[id].Restoring? then
        job.restores == Some(c.nodes[id].from) && job.config == c.nodes[id].config && job.revision == c.revision + 1
      else id in c.nodes && HasJob(c.nodes[id]) && c.nodes[id].job == job
  {
    hide VersionKey, Pruned;
  }
}
