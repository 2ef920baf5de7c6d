/** Planner, protocol, rolling-hash deltas and writer together: what a whole sync achieves. */
module EndToEnd {
  import opened Messages
  import opened Writer
  import opened SyncPlan
  import opened Convergence
  import opened Signatures
  import opened SessionTheorems
  import opened PlanExecution
  import opened TemporaryClash

  /** A job whose plan the server made from the client's full listing. */
  ghost predicate Planned(job: Job) {
    && job.clientBlockSize > 0 && job.serverBlockSize > 0
    && PlansFor(job.h, job.plan, job.serverFiles, job.clientFiles)
    && [] !in job.serverFiles && [] !in job.clientFiles
  }

  /** One in which no checksum or digest collides. */
  ghost predicate Syncable(job: Job) {
    Planned(job) && job.CollisionFree() && NoDigestCollision(job.h, job.serverFiles, job.clientFiles)
  }

  /** No transfer's temporary file has the path of a file on either replica. */
  ghost predicate TempsUnheld(job: Job) {
    forall i :: 0 <= i < |job.plan| && !job.plan[i].direction.Skip? ==> !TempHeld(job, i)
  }

  predicate TempHeld(job: Job, i: nat)
    requires i < |job.plan|
  {
    TempPath(job.plan[i].path) in job.serverFiles || TempPath(job.plan[i].path) in job.clientFiles
  }

  /** The source of every planned transfer exists. */
  lemma PlannedSource(h: Hashes, plan: seq<FileAction>, server: Files, client: Files, i: nat)
    requires PlansFor(h, plan, server, client) && i < |plan|
    ensures plan[i].path in server || plan[i].path in client
    ensures plan[i].direction.Upload? ==> plan[i].path in client
    ensures plan[i].direction.Download? ==> plan[i].path in server
  {
    assert Paths(plan)[i] in Paths(plan);
    assert plan[i] == ActionFor(Listing(h, server), Statuses(h, client), plan[i].path);
  }

  /** Such a plan is one the client can execute, whatever the hashes and the paths. */
  lemma PlannedJobIsValid(job: Job)
    requires Planned(job)
    ensures job.Valid()
  {
    AscendingDistinct(job.plan);
    hide PlansFor, DistinctPaths;
    forall i | 0 <= i < |job.plan| ensures ValidSession(job.SessionAt(i)) {
      PlannedSource(job.h, job.plan, job.serverFiles, job.clientFiles, i);
    }
  }

  /** For a planned job temporary files are in the way exactly when one is held anywhere: a
      file held only by the sender is itself planned to be sent. */
  lemma PlannedTempsClear(job: Job)
    requires Planned(job)
    ensures job.TempsClear() <==> TempsUnheld(job)
  {
    hide TempPath, Planned;
    assert PlansFor(job.h, job.plan, job.serverFiles, job.clientFiles) by { PlannedPlans(job); }
    hide PlansFor;
    forall i | 0 <= i < |job.plan| && !job.plan[i].direction.Skip?
      ensures job.TempClear(i) <==> !TempHeld(job, i)
    {
      var q := TempPath(job.plan[i].path);
      if q in job.serverFiles || q in job.clientFiles {
        HeldIsPlanned(job, q, job.plan[i].direction);
      } else {
        forall j | 0 <= j < |job.plan| ensures job.plan[j].path != q {
          PlannedSource(job.h, job.plan, job.serverFiles, job.clientFiles, j);
        }
      }
    }
  }

  lemma PlannedPlans(job: Job)
    requires Planned(job)
    ensures PlansFor(job.h, job.plan, job.serverFiles, job.clientFiles)
  {
    hide PlansFor;
  }

  /** A path held somewhere is held by the receiver or sent to it. */
  lemma HeldIsPlanned(job: Job, q: Path, d: Direction)
    requires PlansFor(job.h, job.plan, job.serverFiles, job.clientFiles) && !d.Skip?
    requires q in job.serverFiles || q in job.clientFiles
    ensures q in job.Receiving(d) || exists j :: 0 <= j < |job.plan| && job.plan[j].direction == d && job.plan[j].path == q
  {
    assert q in Paths(job.plan);
    var j :| 0 <= j < |job.plan| && Paths(job.plan)[j] == q;
    assert job.plan[j] == ActionFor(Listing(job.h, job.serverFiles), Statuses(job.h, job.clientFiles), q);
  }

  /** What a sync is for: both replicas hold every path, agree on a path exactly when it was
      not in conflict, and no file was replaced by an equal or older version. */
  ghost predicate Synced(job: Job, w: World) {
    var server, client := w.serverFiles, w.clientFiles;
    && server.Keys == client.Keys == job.serverFiles.Keys + job.clientFiles.Keys
    && (forall p :: p in server ==>
          (server[p].content == client[p].content <==> !Conflict(job.serverFiles, job.clientFiles, p)))
    && (forall p :: KeptOrNewer(job.serverFiles, server, p) && KeptOrNewer(job.clientFiles, client, p))
  }

  lemma ExecutedIsSynced(job: Job, w: World)
    requires PlansFor(job.h, job.plan, job.serverFiles, job.clientFiles)
    requires NoDigestCollision(job.h, job.serverFiles, job.clientFiles)
    requires Disks(w) == Execute(Beginning(job), job.plan)
    ensures Synced(job, w)
  {
    TwoPartyConvergence(job.h, job.plan, job.serverFiles, job.clientFiles);
    hide PlansFor, NoDigestCollision, Execute, Conflict, KeptOrNewer;
  }

  /** A whole sync. The server plans from the client's full listing; the client runs all the
      sessions of the plan, at most ten at a time, interleaved message by message; deltas
      come from the rolling hash and files from the writer. Once the transfers are over, the
      replicas are synced, and planning again finds nothing to do. */
  lemma SyncConverges(job: Job, run: seq<World>, k: nat, again: seq<FileAction>)
    requires Syncable(job) && TempsUnheld(job) && IsWorldRun(job, run) && k < |run|
    requires |run[k].sessions| == |job.plan| && TransfersOver(job, run[k])
    requires PlansFor(job.h, again, run[k].serverFiles, run[k].clientFiles)
    ensures Synced(job, run[k])
    ensures forall i :: 0 <= i < |again| ==> again[i].direction.Skip?
  {
    PlannedJobIsValid(job);
    PlannedTempsClear(job);
    assert PlansFor(job.h, job.plan, job.serverFiles, job.clientFiles);
    assert NoDigestCollision(job.h, job.serverFiles, job.clientFiles);
    assert Replicas(job.serverFiles, job.clientFiles) == Beginning(job);
    assert Disks(run[k]) == Replicas(run[k].serverFiles, run[k].clientFiles);
    hide *;
    WorldRunInv(job, run, k);
    AllOverIsWhole(job, run[k]);
    ConcurrentEqualsSequential(job, run, k);
    ExecutedIsSynced(job, run[k]);
    Idempotence(job.h, job.plan, job.serverFiles, job.clientFiles, again);
  }

  /** A path that no started transfer writes, as its target or its temporary file, is kept. */
  lemma UntouchedIsKept(job: Job, w: World, p: Path)
    requires DisksInv(job, w)
    requires forall k :: 0 <= k < w.started && k < |job.plan| && !job.plan[k].direction.Skip? ==>
      p != job.plan[k].path && p != TempPath(job.plan[k].path)
    ensures FileAt(w.clientFiles, p) == FileAt(job.clientFiles, p) && FileAt(w.serverFiles, p) == FileAt(job.serverFiles, p)
  {
    hide TempPath;
  }

  /** An unstarted transfer's path is nobody else's to write, unless it is held as a temporary
      file of a transfer that was started. */
  lemma UnstartedKeepsFiles(job: Job, w: World, i: nat)
    requires Planned(job) && DisksInv(job, w) && w.started <= i < |job.plan|
    requires forall k :: 0 <= k < w.started && !job.plan[k].direction.Skip? ==> !TempHeld(job, k)
    ensures FileAt(w.clientFiles, job.plan[i].path) == FileAt(job.clientFiles, job.plan[i].path)
    ensures FileAt(w.serverFiles, job.plan[i].path) == FileAt(job.serverFiles, job.plan[i].path)
  {
    PlannedJobIsValid(job);
    PlannedSource(job.h, job.plan, job.serverFiles, job.clientFiles, i);
    assert DistinctPaths(job.plan);
    hide Planned, PlansFor, Job.Valid, DisksInv, TempPath;
    UntouchedIsKept(job, w, job.plan[i].path);
  }

  /** A transfer that was never started leaves its path out of sync. */
  lemma UnstartedIsNotSynced(job: Job, w: World, i: nat)
    requires PlansFor(job.h, job.plan, job.serverFiles, job.clientFiles)
    requires i < |job.plan| && !job.plan[i].direction.Skip?
    requires FileAt(w.clientFiles, job.plan[i].path) == FileAt(job.clientFiles, job.plan[i].path)
    requires FileAt(w.serverFiles, job.plan[i].path) == FileAt(job.serverFiles, job.plan[i].path)
    ensures !Synced(job, w)
  {
    var p := job.plan[i].path;
    PlannedSource(job.h, job.plan, job.serverFiles, job.clientFiles, i);
    assert job.plan[i] == ActionFor(Listing(job.h, job.serverFiles), Statuses(job.h, job.clientFiles), p);
    hide PlansFor, KeptOrNewer;
  }

  /** And to be planned again. */
  lemma UnstartedIsPlannedAgain(job: Job, w: World, i: nat, again: seq<FileAction>)
    requires PlansFor(job.h, job.plan, job.serverFiles, job.clientFiles)
    requires PlansFor(job.h, again, w.serverFiles, w.clientFiles) && i < |job.plan|
    requires FileAt(w.clientFiles, job.plan[i].path) == FileAt(job.clientFiles, job.plan[i].path)
    requires FileAt(w.serverFiles, job.plan[i].path) == FileAt(job.serverFiles, job.plan[i].path)
    ensures exists k :: 0 <= k < |again| && again[k] == job.plan[i]
  {
    var p := job.plan[i].path;
    PlannedSource(job.h, job.plan, job.serverFiles, job.clientFiles, i);
    assert p in Paths(again);
    var k :| 0 <= k < |again| && Paths(again)[k] == p;
    assert again[k] == ActionFor(Listing(job.h, w.serverFiles), Statuses(job.h, w.clientFiles), p);
    assert job.plan[i] == ActionFor(Listing(job.h, job.serverFiles), Statuses(job.h, job.clientFiles), p);
    hide PlansFor, Decide;
  }

  /** Every sync ends, and how. An execution of the plan, carried on until every further step
      would abort something (and every execution is finite), leaves the replicas synced if
      and only if every transfer of the plan comes before its tenth Skip. */
  lemma MaximalSyncConverges(job: Job, run: seq<World>, again: seq<FileAction>)
    requires Syncable(job) && TempsUnheld(job)
    requires IsWorldRun(job, run) && Stuck(job, run[|run| - 1])
    requires PlansFor(job.h, again, run[|run| - 1].serverFiles, run[|run| - 1].clientFiles)
    ensures Synced(job, run[|run| - 1]) <==> TransfersPermitted(job.plan)
    ensures (forall i :: 0 <= i < |again| ==> again[i].direction.Skip?) <==> TransfersPermitted(job.plan)
  {
    var n := |run| - 1;
    PlannedJobIsValid(job);
    PlannedTempsClear(job);
    WorldRunInv(job, run, n);
    StuckExactly(job, run, n);
    var w := run[n];
    assert DisksInv(job, w) && PlansFor(job.h, job.plan, job.serverFiles, job.clientFiles);
    hide Syncable, Planned, IsWorldRun, TransfersOver, Job.Valid, Job.CollisionFree, Stuck, PlansFor, Synced, WorldInv,
         SkipCount, DisksInv, TempPath, Job.TempsClear;
    TransfersOverExactly(job, run, n);
    if TransfersPermitted(job.plan) {
      SyncConverges(job, run, n, again);
    } else {
      var i :| 0 <= i < |job.plan| && !job.plan[i].direction.Skip? && SkipCount(job.plan, i) >= 10;
      UnstartedKeepsFiles(job, w, i);
      UnstartedIsNotSynced(job, w, i);
      UnstartedIsPlannedAgain(job, w, i, again);
    }
  }

  /** A replica that lost a path is not synced. */
  lemma LostIsNotSynced(job: Job, w: World, q: Path, d: Direction)
    requires q in job.serverFiles || q in job.clientFiles
    requires q !in DiskOf(w, d)
    ensures !Synced(job, w)
  {
  }

  /** The temporary file of a transfer that can be started is held: some execution ends
      without that path. */
  lemma HeldTempUnsynced(job: Job, i: nat) returns (run: seq<World>)
    requires job.Valid() && i < |job.plan| && !job.plan[i].direction.Skip?
    requires SkipCount(job.plan, i) < 10 && TempHeld(job, i)
    ensures IsWorldRun(job, run) && Stuck(job, run[|run| - 1]) && !Synced(job, run[|run| - 1])
  {
    hide Job.Valid, IsWorldRun, Stuck, DisksInv, TransferOver, TempPath, SkipCount, Synced;
    run := RenamedLast(job, i, false);
    var w := run[|run| - 1];
    if w.started <= i { SkipCountMonotone(job.plan, w.started, i); }
    LostIsNotSynced(job, w, TempPath(job.plan[i].path), job.plan[i].direction);
  }

  /** A transfer comes after the tenth Skip, and no transfer before it is in its way: some
      execution ends without it. */
  lemma LateTransferUnsynced(job: Job, u: nat) returns (run: seq<World>)
    requires Planned(job) && job.Valid() && u < |job.plan| && !job.plan[u].direction.Skip?
    requires SkipCount(job.plan, u) >= 10
    requires forall i :: 0 <= i < |job.plan| && !job.plan[i].direction.Skip? && SkipCount(job.plan, i) < 10 ==>
      !TempHeld(job, i)
    ensures IsWorldRun(job, run) && Stuck(job, run[|run| - 1]) && !Synced(job, run[|run| - 1])
  {
    PlannedPlans(job);
    hide Planned, PlansFor, Job.Valid, IsWorldRun, Stuck, DisksInv, TransferOver, TempHeld, SkipCount, Synced;
    run := RenamedLast(job, |job.plan|, false);
    var w := run[|run| - 1];
    OnlyPermittedStart(job, run, |run| - 1);
    UnstartedKeepsFiles(job, w, u);
    UnstartedIsNotSynced(job, w, u);
  }

  /** If a transfer comes after the tenth Skip, or the temporary file of one is held somewhere,
      some execution without aborts ends unsynced. */
  lemma SomeRunUnsynced(job: Job) returns (run: seq<World>)
    requires Planned(job) && !(TransfersPermitted(job.plan) && TempsUnheld(job))
    ensures IsWorldRun(job, run) && Stuck(job, run[|run| - 1]) && !Synced(job, run[|run| - 1])
  {
    PlannedJobIsValid(job);
    hide Planned, Job.Valid, IsWorldRun, Stuck, SkipCount, Synced, TempHeld;
    if i :| 0 <= i < |job.plan| && !job.plan[i].direction.Skip? && SkipCount(job.plan, i) < 10 && TempHeld(job, i) {
      run := HeldTempUnsynced(job, i);
    } else {
      var u :| 0 <= u < |job.plan| && !job.plan[u].direction.Skip? && SkipCount(job.plan, u) >= 10;
      run := LateTransferUnsynced(job, u);
    }
  }

  lemma OnlyPermittedStart(job: Job, run: seq<World>, k: nat)
    requires job.Valid() && IsWorldRun(job, run) && k < |run| && Stuck(job, run[k])
    ensures forall i :: 0 <= i < |job.plan| && SkipCount(job.plan, i) >= 10 ==> run[k].started <= i
  {
    assert NoSessionAborted(run[k]);
    hide Job.Valid, IsWorldRun, Stuck, NoSessionAborted, SkipCount;
    forall i | 0 <= i < |job.plan| && SkipCount(job.plan, i) >= 10 ensures run[k].started <= i {
      TenSkipsBlock(job, run, k, i);
    }
  }

  /** When a sync can be relied on, exactly. Every execution of the plan that is carried on
      until each further step would abort something leaves the replicas synced if and only if
      every transfer comes before the tenth Skip and no transfer's temporary file has the path
      of a file on either replica. */
  lemma SyncsExactly(job: Job)
    requires Syncable(job)
    ensures (forall run: seq<World> :: IsWorldRun(job, run) && Stuck(job, run[|run| - 1]) ==> Synced(job, run[|run| - 1]))
      <==> TransfersPermitted(job.plan) && TempsUnheld(job)
  {
    hide PlansFor, Job.CollisionFree, IsWorldRun, Stuck, Synced, TempPath, SkipCount, NoDigestCollision, TempsUnheld,
         TransfersPermitted;
    if TransfersPermitted(job.plan) && TempsUnheld(job) {
      forall run: seq<World> | IsWorldRun(job, run) && Stuck(job, run[|run| - 1]) ensures Synced(job, run[|run| - 1]) {
        hide *;
        var w := run[|run| - 1];
        var again := PlanExists(Listing(job.h, w.serverFiles), Statuses(job.h, w.clientFiles));
        PlanIsFor(job.h, again, w.serverFiles, w.clientFiles);
        MaximalSyncConverges(job, run, again);
      }
    } else {
      var run := SomeRunUnsynced(job);
    }
  }

  lemma PlanIsFor(h: Hashes, plan: seq<FileAction>, server: Files, client: Files)
    requires IsPlan(plan, Listing(h, server), Statuses(h, client))
    ensures PlansFor(h, plan, server, client)
  {
    hide IsPlan;
  }

  /** The number of Skips in digits: of plans that begin with `n` Skips and then transfer one
      file, those that every execution syncs are those with at most nine. */
  lemma NineSkipsThenTransfer(job: Job, n: nat)
    requires Syncable(job) && TempsUnheld(job) && |job.plan| == n + 1
    requires (forall i :: 0 <= i < n ==> job.plan[i].direction.Skip?) && !job.plan[n].direction.Skip?
    ensures (forall run: seq<World> :: IsWorldRun(job, run) && Stuck(job, run[|run| - 1]) ==> Synced(job, run[|run| - 1]))
      <==> n <= 9
  {
    assert job.clientBlockSize > 0 && job.serverBlockSize > 0;
    PermittedAfter(job.plan, n);
    hide *;
    SyncsExactly(job);
  }

  lemma PermittedAfter(plan: seq<FileAction>, n: nat)
    requires |plan| == n + 1 && (forall i :: 0 <= i < n ==> plan[i].direction.Skip?) && !plan[n].direction.Skip?
    ensures TransfersPermitted(plan) <==> n <= 9
  {
    CountsAll(plan, n);
    hide SkipCount;
  }

  lemma {:induction false} CountsAll(plan: seq<FileAction>, n: nat)
    requires n <= |plan| && forall i :: 0 <= i < n ==> plan[i].direction.Skip?
    ensures SkipCount(plan, n) == n
  {
    if n > 0 { CountsAll(plan, n - 1); }
  }
}
