/** `send_data_to_server` of src/bin/client.rs: all sessions of a plan interleaved on two
    shared disks, at most ten in flight. */
module PlanExecution {
  import opened Messages
  import opened Signatures
  import opened Writer
  import opened Handler
  import opened Protocol
  import opened SessionInvariant
  import opened SessionTheorems
  import opened SessionProgress
  import opened Convergence

  /** The permits of the semaphore. */
  const PERMITS: nat := 10

  /** A plan to execute, how each side is configured, and the disks at the beginning. */
  datatype Job = Job(h: Hashes, plan: seq<FileAction>, clientBlockSize: nat, serverBlockSize: nat,
                     clientFiles: Files, serverFiles: Files)
  {
    function SessionAt(i: nat): Session
      requires i < |plan|
    {
      var a := plan[i];
      Session(h, a, clientBlockSize, serverBlockSize, FileAt(clientFiles, a.path), FileAt(serverFiles, a.path))
    }

    /** Every session is valid and no path occurs twice. */
    ghost predicate Valid()
      ensures Valid() ==> clientBlockSize > 0 && serverBlockSize > 0
    {
      && clientBlockSize > 0 && serverBlockSize > 0
      && DistinctPaths(plan)
      && (forall i :: 0 <= i < |plan| ==> ValidSession(SessionAt(i)))
    }

    /** The disk that receives in this direction. */
    function Receiving(d: Direction): Files { if d.Upload? then serverFiles else clientFiles }

    /** The temporary file of a transfer is neither on the disk that receives it nor the target
        of another transfer to that disk. */
    ghost predicate TempClear(i: nat)
      requires i < |plan|
    {
      && TempPath(plan[i].path) !in Receiving(plan[i].direction)
      && forall j :: 0 <= j < |plan| && plan[j].direction == plan[i].direction ==> plan[j].path != TempPath(plan[i].path)
    }

    ghost predicate TempsClear() {
      forall i :: 0 <= i < |plan| && !plan[i].direction.Skip? ==> TempClear(i)
    }

    /** The hash functions serve every transfer of the plan. */
    ghost predicate CollisionFree()
      requires clientBlockSize > 0 && serverBlockSize > 0
    {
      forall i :: 0 <= i < |plan| ==> SessionTheorems.CollisionFree(SessionAt(i))
    }
  }

  /** `started` sessions have been spawned; the others are still in their initial state. */
  datatype World = World(clientFiles: Files, serverFiles: Files, sessions: seq<State>, started: nat)

  function Begin(job: Job): World {
    World(job.clientFiles, job.serverFiles,
          seq(|job.plan|, i requires 0 <= i < |job.plan| => InitialState(job.plan[i])), 0)
  }

  /** How many of the first `n` sessions hold a permit: their client task has not returned. */
  function InFlight(sessions: seq<State>, n: nat): nat
    requires n <= |sessions|
  {
    if n == 0 then 0 else InFlight(sessions, n - 1) + if sessions[n - 1].client.status.Running? then 1 else 0
  }

  /** The next action gets a permit and its session is spawned. */
  ghost predicate StartStep(job: Job, w: World, w': World) {
    && w.started < |job.plan| == |w.sessions|
    && InFlight(w.sessions, w.started) < PERMITS
    && w' == w.(started := w.started + 1)
  }

  /** A spawned session makes a step on the shared disks. */
  ghost predicate MoveStep(job: Job, w: World, i: nat, w': World)
    requires job.clientBlockSize > 0 && job.serverBlockSize > 0
  {
    && i < w.started <= |job.plan| == |w.sessions| == |w'.sessions|
    && w'.started == w.started
    && SessionStep(job.SessionAt(i), w.clientFiles, w.serverFiles, w.sessions[i],
                   w'.clientFiles, w'.serverFiles, w'.sessions[i])
    && w'.sessions == w.sessions[i := w'.sessions[i]]
  }

  ghost predicate WorldStep(job: Job, w: World, w': World)
    requires job.clientBlockSize > 0 && job.serverBlockSize > 0
  {
    StartStep(job, w, w') || exists i: nat :: MoveStep(job, w, i, w')
  }

  ghost predicate IsWorldRun(job: Job, run: seq<World>)
    requires job.clientBlockSize > 0 && job.serverBlockSize > 0
    ensures IsWorldRun(job, run) ==> run != []
  {
    && run != [] && run[0] == Begin(job)
    && forall k :: 0 < k < |run| ==> WorldStep(job, run[k - 1], run[k])
  }

  // ---------- The invariant ----------

  /** Started sessions that skip their file keep their own invariant, whatever the paths are. */
  ghost predicate SkipsInv(job: Job, w: World)
    requires job.Valid()
    ensures SkipsInv(job, w) ==> |w.sessions| == |job.plan| && w.started <= |job.plan|
  {
    && |w.sessions| == |job.plan| && w.started <= |job.plan|
    && forall i :: 0 <= i < |job.plan| && job.plan[i].direction.Skip? ==>
         SessionInv(job.SessionAt(i), w.clientFiles, w.serverFiles, w.sessions[i])
  }

  ghost predicate WorldInv(job: Job, w: World)
    requires job.Valid()
    ensures WorldInv(job, w) ==> |w.sessions| == |job.plan| && w.started <= |job.plan|
  {
    && |w.sessions| == |job.plan| && w.started <= |job.plan|
    && (forall i :: 0 <= i < |job.plan| ==>
          SessionInv(job.SessionAt(i), w.clientFiles, w.serverFiles, w.sessions[i]))
    && (forall i :: w.started <= i < |job.plan| ==> w.sessions[i] == InitialState(job.plan[i]))
    && InFlight(w.sessions, w.started) <= 10
    && DisksInv(job, w)
  }

  /** The target or the temporary file of one of the first `n` transfers in this direction. */
  ghost predicate Touched(job: Job, n: nat, d: Direction, p: Path) {
    exists i :: 0 <= i < n && i < |job.plan| && job.plan[i].direction == d
      && (p == job.plan[i].path || p == TempPath(job.plan[i].path))
  }

  /** Started transfers have touched no file but their targets and temporary files, on the
      disk that receives them. */
  ghost predicate DisksInv(job: Job, w: World) {
    && (forall p :: !Touched(job, w.started, Upload, p) ==> FileAt(w.serverFiles, p) == FileAt(job.serverFiles, p))
    && (forall p :: !Touched(job, w.started, Download, p) ==> FileAt(w.clientFiles, p) == FileAt(job.clientFiles, p))
  }

  lemma BeginInv(job: Job)
    requires job.Valid()
    ensures WorldInv(job, Begin(job))
  {
    forall i | 0 <= i < |job.plan|
      ensures SessionInv(job.SessionAt(i), job.clientFiles, job.serverFiles, InitialState(job.plan[i]))
    {
      InitialInv(job.SessionAt(i), job.clientFiles, job.serverFiles);
    }
  }

  lemma {:induction false} InFlightSame(x: seq<State>, y: seq<State>, i: nat, n: nat)
    requires i < |x| == |y| && n <= |x| && y == x[i := y[i]]
    requires y[i].client.status.Running? ==> x[i].client.status.Running?
    ensures InFlight(y, n) <= InFlight(x, n)
  {
    if n > 0 { InFlightSame(x, y, i, n - 1); }
  }

  /** No step makes an endpoint run that did not run before. */
  lemma StepsNeverRestart(c: Session, cf: Files, sf: Files, s: State, cf': Files, sf': Files, s': State)
    requires c.clientBlockSize > 0 && c.serverBlockSize > 0
    requires SessionStep(c, cf, sf, s, cf', sf', s')
    ensures s'.client.status.Running? ==> s.client.status.Running?
    ensures NoneAborted(s') ==> NoneAborted(s)
  {
    hide SignAll, FileBlocks, Respond, Apply;
  }

  /** A transfer keeps off the files that other sessions read. */
  lemma OthersAreFramed(job: Job, i: nat, j: nat, files: Files, files': Files)
    requires job.Valid() && job.TempsClear() && i < |job.plan| && j < |job.plan| && i != j
    requires !job.plan[i].direction.Skip? && !job.plan[j].direction.Skip?
    requires Framed(job.plan[i].path, files, files')
    ensures FileAt(files', job.plan[j].path) == FileAt(files, job.plan[j].path)
    ensures job.plan[i].direction == job.plan[j].direction ==>
      FileAt(files', TempPath(job.plan[j].path)) == FileAt(files, TempPath(job.plan[j].path))
  {
    var p, q := job.plan[i].path, job.plan[j].path;
    assert p != q;
    assert ValidSession(job.SessionAt(i)) && ValidSession(job.SessionAt(j));
    assert job.TempClear(i) && job.TempClear(j);
    if TempPath(p) == TempPath(q) { TempPathInjective(p, q); }
  }

  /** What a step of session `i` leaves as it was. */
  ghost predicate OnlyTouches(job: Job, i: nat, w: World, w': World)
    requires i < |job.plan|
  {
    && Framed(job.plan[i].path, w.clientFiles, w'.clientFiles)
    && Framed(job.plan[i].path, w.serverFiles, w'.serverFiles)
    && (!job.plan[i].direction.Download? ==> w'.clientFiles == w.clientFiles)
    && (!job.plan[i].direction.Upload? ==> w'.serverFiles == w.serverFiles)
  }

  lemma OtherSessionKept(job: Job, w: World, i: nat, w': World, j: nat)
    requires job.Valid() && job.TempsClear() && i < |job.plan| && j < |job.plan| == |w.sessions| && i != j
    requires OnlyTouches(job, i, w, w')
    requires SessionInv(job.SessionAt(j), w.clientFiles, w.serverFiles, w.sessions[j])
    ensures SessionInv(job.SessionAt(j), w'.clientFiles, w'.serverFiles, w.sessions[j])
  {
    assert ValidSession(job.SessionAt(j));
    hide Job.Valid, SessionInv, ValidSession, TempPath, Job.TempsClear, Framed;
    if !job.plan[i].direction.Skip? && !job.plan[j].direction.Skip? {
      if job.plan[i].direction.Upload? {
        OthersAreFramed(job, i, j, w.serverFiles, w'.serverFiles);
      } else {
        OthersAreFramed(job, i, j, w.clientFiles, w'.clientFiles);
      }
    }
    OtherFilesKeep(job.SessionAt(j), w.clientFiles, w.serverFiles, w.sessions[j], w'.clientFiles, w'.serverFiles);
  }

  lemma MoveKeepsSessions(job: Job, w: World, i: nat, w': World)
    requires job.Valid() && job.TempsClear() && WorldInv(job, w) && MoveStep(job, w, i, w')
    ensures forall j :: 0 <= j < |job.plan| ==>
      SessionInv(job.SessionAt(j), w'.clientFiles, w'.serverFiles, w'.sessions[j])
    ensures OnlyTouches(job, i, w, w')
  {
    hide SessionInv, SessionStep, ValidSession, TempPath, DistinctPaths, Job.TempsClear;
    var c := job.SessionAt(i);
    assert ValidSession(c);
    SessionStepKeeps(c, w.clientFiles, w.serverFiles, w.sessions[i], w'.clientFiles, w'.serverFiles, w'.sessions[i]);
    forall j | 0 <= j < |job.plan|
      ensures SessionInv(job.SessionAt(j), w'.clientFiles, w'.serverFiles, w'.sessions[j])
    {
      if j != i { OtherSessionKept(job, w, i, w', j); }
    }
  }

  lemma MoveKeepsDisks(job: Job, w: World, i: nat, w': World)
    requires DisksInv(job, w) && i < w.started == w'.started && i < |job.plan|
    requires OnlyTouches(job, i, w, w')
    ensures DisksInv(job, w')
  {
    hide TempPath;
    forall p | !Touched(job, w.started, Upload, p) ensures FileAt(w'.serverFiles, p) == FileAt(job.serverFiles, p) {
      assert job.plan[i].direction.Upload? ==> p != job.plan[i].path && p != TempPath(job.plan[i].path);
    }
    forall p | !Touched(job, w.started, Download, p) ensures FileAt(w'.clientFiles, p) == FileAt(job.clientFiles, p) {
      assert job.plan[i].direction.Download? ==> p != job.plan[i].path && p != TempPath(job.plan[i].path);
    }
  }

  /** A step of one session keeps the invariants of all. */
  lemma MoveKeeps(job: Job, w: World, i: nat, w': World)
    requires job.Valid() && job.TempsClear() && WorldInv(job, w) && MoveStep(job, w, i, w')
    ensures WorldInv(job, w')
  {
    hide Job.Valid, Job.TempsClear, SessionInv, SessionStep, ValidSession, InFlight, DisksInv, OnlyTouches, TempPath;
    MoveKeepsSessions(job, w, i, w');
    MoveKeepsDisks(job, w, i, w');
    StepsNeverRestart(job.SessionAt(i), w.clientFiles, w.serverFiles, w.sessions[i],
                      w'.clientFiles, w'.serverFiles, w'.sessions[i]);
    InFlightSame(w.sessions, w'.sessions, i, w.started);
  }

  lemma StartKeepsDisks(job: Job, w: World, w': World)
    requires DisksInv(job, w) && StartStep(job, w, w')
    ensures DisksInv(job, w')
  {
    hide TempPath, InFlight;
    forall d, p | Touched(job, w.started, d, p) ensures Touched(job, w'.started, d, p) {}
  }

  lemma StartKeeps(job: Job, w: World, w': World)
    requires job.Valid() && WorldInv(job, w) && StartStep(job, w, w')
    ensures WorldInv(job, w')
  {
    hide Job.Valid, SessionInv, ValidSession, TempPath, DisksInv;
    StartKeepsDisks(job, w, w');
  }

  lemma WorldRunStarts(job: Job, run: seq<World>)
    requires job.Valid() && IsWorldRun(job, run)
    ensures run != [] && run[0] == Begin(job) && run[0].started == 0
  {
    hide Job.Valid, WorldStep;
  }

  lemma WorldRunSteps(job: Job, run: seq<World>, k: nat) returns (i: nat)
    requires job.Valid() && IsWorldRun(job, run) && 0 < k < |run|
    ensures job.clientBlockSize > 0 && job.serverBlockSize > 0
    ensures StartStep(job, run[k - 1], run[k]) || MoveStep(job, run[k - 1], i, run[k])
  {
    assert WorldStep(job, run[k - 1], run[k]);
    i := 0;
    hide StartStep, MoveStep;
    if !StartStep(job, run[k - 1], run[k]) {
      i :| MoveStep(job, run[k - 1], i, run[k]);
    }
  }

  lemma {:induction false} WorldRunInv(job: Job, run: seq<World>, k: nat)
    requires job.Valid() && job.TempsClear() && IsWorldRun(job, run) && k < |run|
    ensures WorldInv(job, run[k])
  {
    hide *;
    if k == 0 {
      WorldRunStarts(job, run);
      BeginInv(job);
    } else {
      WorldRunInv(job, run, k - 1);
      var i := WorldRunSteps(job, run, k);
      if StartStep(job, run[k - 1], run[k]) {
        StartKeeps(job, run[k - 1], run[k]);
      } else {
        MoveKeeps(job, run[k - 1], i, run[k]);
      }
    }
  }

  // ---------- Concurrent execution is sequential execution ----------

  ghost predicate TransferOver(job: Job, w: World, i: nat)
    requires i < |job.plan| == |w.sessions|
  {
    job.plan[i].direction.Skip? || Over(job.SessionAt(i), w.sessions[i])
  }

  ghost predicate TransfersOver(job: Job, w: World)
    requires |job.plan| == |w.sessions|
  {
    forall i :: 0 <= i < |job.plan| ==> TransferOver(job, w, i)
  }

  function Beginning(job: Job): Replicas { Replicas(job.serverFiles, job.clientFiles) }

  function Disks(w: World): Replicas { Replicas(w.serverFiles, w.clientFiles) }

  /** All that was started has come to its end. */
  ghost predicate StartedOver(job: Job, w: World) {
    |w.sessions| == |job.plan| && w.started <= |job.plan| && forall i :: 0 <= i < w.started ==> TransferOver(job, w, i)
  }

  /** A transfer that is over has done to its path what copying the file would. */
  lemma OverIsPerformed(job: Job, w: World, i: nat)
    requires job.Valid() && job.CollisionFree() && WorldInv(job, w) && i < |job.plan|
    requires !job.plan[i].direction.Skip? && TransferOver(job, w, i)
    ensures Pair(Disks(w), job.plan[i].path) == Pair(Perform(Beginning(job), job.plan[i]), job.plan[i].path)
    ensures job.plan[i].direction.Upload? ==> TempPath(job.plan[i].path) !in w.serverFiles
    ensures job.plan[i].direction.Download? ==> TempPath(job.plan[i].path) !in w.clientFiles
  {
    var c, a, x := job.SessionAt(i), job.plan[i], Config(w.clientFiles, w.serverFiles, w.sessions[i]);
    assert ValidSession(c) && SessionInv(c, w.clientFiles, w.serverFiles, w.sessions[i]);
    InvIsSafe(c, x);
    assert FileAt(if a.direction.Upload? then w.clientFiles else w.serverFiles, a.path)
        == if a.direction.Upload? then c.clientFile else c.serverFile;
    hide Job.Valid, WorldInv, SenderInv, ReceiverInv, Cut, TempPath, Transfer.Answer, Transfer.Cache;
  }

  /** A started transfer's temporary file is gone, as it was in the beginning. */
  lemma TempIsGone(job: Job, w: World, i: nat)
    requires job.Valid() && job.TempsClear() && job.CollisionFree() && WorldInv(job, w) && StartedOver(job, w)
    requires i < w.started && !job.plan[i].direction.Skip?
    ensures var temp := TempPath(job.plan[i].path);
      && (job.plan[i].direction.Upload? ==> FileAt(w.serverFiles, temp) == FileAt(job.serverFiles, temp))
      && (job.plan[i].direction.Download? ==> FileAt(w.clientFiles, temp) == FileAt(job.clientFiles, temp))
  {
    assert TransferOver(job, w, i) && job.TempClear(i);
    hide Job.Valid, Job.CollisionFree, WorldInv, TransferOver, TempPath;
    OverIsPerformed(job, w, i);
  }

  /** Not the target of a started transfer in this direction. */
  ghost predicate NoTarget(job: Job, n: nat, d: Direction, p: Path) {
    forall i :: 0 <= i < n && i < |job.plan| && job.plan[i].direction == d ==> job.plan[i].path != p
  }

  lemma UntouchedKept(job: Job, w: World, p: Path)
    requires job.Valid() && WorldInv(job, w)
    ensures !Touched(job, w.started, Upload, p) ==> FileAt(w.serverFiles, p) == FileAt(job.serverFiles, p)
    ensures !Touched(job, w.started, Download, p) ==> FileAt(w.clientFiles, p) == FileAt(job.clientFiles, p)
  {
    hide Job.Valid, SessionInv, ValidSession, Touched, InFlight;
  }

  /** On each disk a path that is no target there is as it was. */
  lemma NoTargetKept(job: Job, w: World, d: Direction, p: Path)
    requires job.Valid() && job.TempsClear() && job.CollisionFree() && WorldInv(job, w) && StartedOver(job, w)
    requires NoTarget(job, w.started, d, p)
    ensures d.Upload? ==> FileAt(w.serverFiles, p) == FileAt(job.serverFiles, p)
    ensures d.Download? ==> FileAt(w.clientFiles, p) == FileAt(job.clientFiles, p)
  {
    UntouchedKept(job, w, p);
    hide Job.Valid, Job.CollisionFree, Job.TempsClear, WorldInv, TempPath, StartedOver;
    if !d.Skip? && Touched(job, w.started, d, p) {
      var i :| 0 <= i < w.started && i < |job.plan| && job.plan[i].direction == d
        && (p == job.plan[i].path || p == TempPath(job.plan[i].path));
      TempIsGone(job, w, i);
    }
  }

  lemma OverAt(job: Job, w: World, p: Path)
    requires job.Valid() && job.TempsClear() && job.CollisionFree() && WorldInv(job, w) && StartedOver(job, w)
    ensures Pair(Disks(w), p) == Pair(Execute(Beginning(job), job.plan[..w.started]), p)
  {
    var plan := job.plan[..w.started];
    assert DistinctPaths(plan) by { hide ValidSession, TempPath; }
    hide *;
    if i :| 0 <= i < |plan| && plan[i].path == p {
      ExecuteAt(Beginning(job), plan, i);
      OverActionAt(job, w, i);
    } else {
      ExecuteElsewhere(Beginning(job), plan, p);
      OverElsewhere(job, w, p);
    }
  }

  lemma OverElsewhere(job: Job, w: World, p: Path)
    requires job.Valid() && job.TempsClear() && job.CollisionFree() && WorldInv(job, w) && StartedOver(job, w)
    requires forall i :: 0 <= i < w.started ==> job.plan[..w.started][i].path != p
    ensures Pair(Disks(w), p) == Pair(Beginning(job), p)
  {
    assert forall i :: 0 <= i < w.started ==> job.plan[..w.started][i] == job.plan[i];
    assert NoTarget(job, w.started, Upload, p) && NoTarget(job, w.started, Download, p);
    hide Job.Valid, Job.CollisionFree, Job.TempsClear, WorldInv, StartedOver;
    NoTargetKept(job, w, Upload, p);
    NoTargetKept(job, w, Download, p);
  }

  lemma OverActionAt(job: Job, w: World, i: nat)
    requires job.Valid() && job.TempsClear() && job.CollisionFree() && WorldInv(job, w) && StartedOver(job, w)
    requires i < w.started
    ensures var a := job.plan[..w.started][i];
      Pair(Disks(w), a.path) == Pair(Perform(Beginning(job), a), a.path)
  {
    assert TransferOver(job, w, i);
    if job.plan[i].direction.Skip? {
      assert forall k :: 0 <= k < |job.plan| && k != i ==> job.plan[k].path != job.plan[i].path by {
        DistinctAt(job.plan, i);
      }
      assert NoTarget(job, w.started, Upload, job.plan[i].path) && NoTarget(job, w.started, Download, job.plan[i].path);
      hide Job.Valid, Job.CollisionFree, Job.TempsClear, WorldInv, StartedOver, NoTarget;
      NoTargetKept(job, w, Upload, job.plan[i].path);
      NoTargetKept(job, w, Download, job.plan[i].path);
    } else {
      hide Job.Valid, Job.CollisionFree, Job.TempsClear, WorldInv, StartedOver, TransferOver;
      OverIsPerformed(job, w, i);
    }
  }

  lemma DistinctAt(plan: seq<FileAction>, i: nat)
    requires DistinctPaths(plan) && i < |plan|
    ensures forall k :: 0 <= k < |plan| && k != i ==> plan[k].path != plan[i].path
  {
  }

  /** Whatever the interleaving of the sessions, message by message and write by write, once
      the transfers that were started are over, both disks hold exactly what executing the
      started actions one at a time by plain copies gives; and once all transfers are over,
      what executing the whole plan gives. */
  lemma ConcurrentEqualsSequential(job: Job, run: seq<World>, k: nat)
    requires job.Valid() && job.TempsClear() && job.CollisionFree() && IsWorldRun(job, run) && k < |run|
    requires StartedOver(job, run[k])
    ensures Disks(run[k]) == Execute(Beginning(job), job.plan[..run[k].started])
    ensures TransfersOver(job, run[k]) ==> Disks(run[k]) == Execute(Beginning(job), job.plan)
  {
    WorldRunInv(job, run, k);
    var w := run[k];
    var r, e := Disks(w), Execute(Beginning(job), job.plan[..w.started]);
    if TransfersOver(job, w) {
      AllOverIsWhole(job, w);
    }
    hide *;
    forall p ensures Pair(r, p) == Pair(e, p) {
      OverAt(job, w, p);
    }
    SameReplicas(r, e);
  }

  /** An action that was not started is no transfer that is over, so only Skips are left out. */
  lemma AllOverIsWhole(job: Job, w: World)
    requires job.Valid() && WorldInv(job, w) && TransfersOver(job, w)
    ensures StartedOver(job, w)
    ensures Execute(Beginning(job), job.plan) == Execute(Beginning(job), job.plan[..w.started])
  {
    forall i | w.started <= i < |job.plan| ensures job.plan[i].direction.Skip? {
      assert TransferOver(job, w, i) && w.sessions[i] == InitialState(job.plan[i]);
    }
    hide WorldInv, Job.Valid, TransferOver;
    assert forall i :: 0 <= i < w.started ==> TransferOver(job, w, i);
    ExecuteSkips(Beginning(job), job.plan, w.started);
  }

  lemma {:induction false} ExecuteSkips(r: Replicas, plan: seq<FileAction>, n: nat)
    requires n <= |plan| && forall i :: n <= i < |plan| ==> plan[i].direction.Skip?
    ensures Execute(r, plan) == Execute(r, plan[..n])
    decreases |plan|
  {
    if n == |plan| {
      assert plan[..n] == plan;
    } else {
      var all := plan[..|plan| - 1];
      assert all[..n] == plan[..n];
      ExecuteSkips(r, all, n);
    }
  }

  lemma SameReplicas(r: Replicas, e: Replicas)
    requires forall p :: Pair(r, p) == Pair(e, p)
    ensures r == e
  {
    forall p
      ensures (p in r.server <==> p in e.server) && (p in r.server ==> r.server[p] == e.server[p])
      ensures (p in r.client <==> p in e.client) && (p in r.client ==> r.client[p] == e.client[p])
    {
      assert Pair(r, p) == Pair(e, p);
    }
    assert r.server == e.server && r.client == e.client;
  }

  /** At every moment of every execution, with any sessions aborted, each target is its old
      file or, after the rename, its source cut where forwarding stopped. */
  lemma EveryTargetSafe(job: Job, run: seq<World>, k: nat, i: nat)
    requires job.Valid() && job.TempsClear() && IsWorldRun(job, run) && k < |run|
    requires i < |job.plan| && !job.plan[i].direction.Skip?
    ensures |run[k].sessions| == |job.plan|
    ensures ValidSession(job.SessionAt(i))
    ensures var c, x := job.SessionAt(i), Config(run[k].clientFiles, run[k].serverFiles, run[k].sessions[i]);
      TargetSafe(c, x) && (SessionTheorems.CollisionFree(c) ==> TargetIsCut(c, x))
  {
    WorldRunInv(job, run, k);
    InvIsSafe(job.SessionAt(i), Config(run[k].clientFiles, run[k].serverFiles, run[k].sessions[i]));
  }

  // ---------- Permits ----------

  ghost predicate NoSessionAborted(w: World) {
    forall i :: 0 <= i < |w.sessions| ==> NoneAborted(w.sessions[i])
  }

  function SkipCount(plan: seq<FileAction>, n: nat): nat
    requires n <= |plan|
  {
    if n == 0 then 0 else SkipCount(plan, n - 1) + if plan[n - 1].direction.Skip? then 1 else 0
  }

  lemma SkipsAreKept(job: Job, w: World, i: nat, w': World)
    requires job.Valid() && SkipsInv(job, w) && MoveStep(job, w, i, w')
    ensures SkipsInv(job, w')
  {
    assert job.plan[i].direction.Skip? ==> ValidSession(job.SessionAt(i));
    hide Job.Valid, SkipInv, SessionStep, ValidSession;
    if job.plan[i].direction.Skip? {
      SkipStepKeeps(job.SessionAt(i), w.clientFiles, w.serverFiles, w.sessions[i],
                    w'.clientFiles, w'.serverFiles, w'.sessions[i]);
    }
    forall j | 0 <= j < |job.plan| && job.plan[j].direction.Skip?
      ensures SessionInv(job.SessionAt(j), w'.clientFiles, w'.serverFiles, w'.sessions[j])
    {
      assert SessionInv(job.SessionAt(j), w.clientFiles, w.serverFiles, w.sessions[j]);
    }
  }

  lemma {:induction false} SkipsRunInv(job: Job, run: seq<World>, k: nat)
    requires job.Valid() && IsWorldRun(job, run) && k < |run|
    ensures SkipsInv(job, run[k])
  {
    hide *;
    if k == 0 {
      WorldRunStarts(job, run);
      BeginInv(job);
      WorldInvSkips(job, run[0]);
    } else {
      SkipsRunInv(job, run, k - 1);
      var i := WorldRunSteps(job, run, k);
      if StartStep(job, run[k - 1], run[k]) {
        StartKeepsSkips(job, run[k - 1], run[k]);
      } else {
        SkipsAreKept(job, run[k - 1], i, run[k]);
      }
    }
  }

  lemma StartKeepsSkips(job: Job, w: World, w': World)
    requires job.Valid() && SkipsInv(job, w) && StartStep(job, w, w')
    ensures SkipsInv(job, w')
  {
    hide Job.Valid, SkipInv, ValidSession, InFlight;
  }

  lemma WorldInvSkips(job: Job, w: World)
    requires job.Valid() && WorldInv(job, w)
    ensures SkipsInv(job, w)
  {
    hide Job.Valid, SessionInv, ValidSession, DisksInv, InFlight;
  }

  /** The client of a session that skips its file never gives its permit back; that of a
      transfer that is over has. */
  lemma SkipHoldsPermit(job: Job, w: World, i: nat)
    requires job.Valid() && SkipsInv(job, w) && NoSessionAborted(w) && i < |job.plan|
    ensures job.plan[i].direction.Skip? ==> w.sessions[i].client.status.Running?
    ensures !job.plan[i].direction.Skip? && TransferOver(job, w, i) ==> !w.sessions[i].client.status.Running?
  {
    var c, s := job.SessionAt(i), w.sessions[i];
    assert ValidSession(c) && NoneAborted(s);
    assert job.plan[i].direction.Skip? ==> SessionInv(c, w.clientFiles, w.serverFiles, s);
    hide SkipsInv, Job.Valid, ValidSession, SenderInv, ReceiverInv;
  }

  lemma {:induction false} SkipsHoldPermits(job: Job, w: World, n: nat)
    requires job.Valid() && SkipsInv(job, w) && NoSessionAborted(w) && n <= w.started <= |w.sessions| == |job.plan|
    ensures SkipCount(job.plan, n) <= InFlight(w.sessions, n)
    ensures (forall i :: 0 <= i < n ==> TransferOver(job, w, i)) ==> SkipCount(job.plan, n) == InFlight(w.sessions, n)
  {
    hide SkipsInv, Job.Valid, NoSessionAborted, TransferOver;
    if n > 0 {
      SkipsHoldPermits(job, w, n - 1);
      SkipHoldsPermit(job, w, n - 1);
      assert (forall i :: 0 <= i < n ==> TransferOver(job, w, i)) ==> TransferOver(job, w, n - 1);
    }
  }

  // ---------- The permits counted ----------

  lemma OneMore<T>(before: set<T>, after: set<T>, n: T, hit: bool)
    requires n !in before
    requires forall i :: i in after <==> i in before || (hit && i == n)
    ensures |after| == |before| + if hit then 1 else 0
  {
    if hit {
      assert after == before + {n};
    } else {
      assert after == before;
    }
  }

  lemma {:induction false} InFlightIs(sessions: seq<State>, n: nat)
    requires n <= |sessions|
    ensures InFlight(sessions, n) == |set i | 0 <= i < n && sessions[i].client.status.Running?|
  {
    if n > 0 {
      InFlightIs(sessions, n - 1);
      var before := set i | 0 <= i < n - 1 && sessions[i].client.status.Running?;
      var after := set i | 0 <= i < n && sessions[i].client.status.Running?;
      OneMore(before, after, n - 1, sessions[n - 1].client.status.Running?);
    }
  }

  lemma {:induction false} SkipCountIs(plan: seq<FileAction>, n: nat)
    requires n <= |plan|
    ensures SkipCount(plan, n) == |set i | 0 <= i < n && plan[i].direction.Skip?|
  {
    if n > 0 {
      SkipCountIs(plan, n - 1);
      var before := set i | 0 <= i < n - 1 && plan[i].direction.Skip?;
      var after := set i | 0 <= i < n && plan[i].direction.Skip?;
      OneMore(before, after, n - 1, plan[n - 1].direction.Skip?);
    }
  }

  lemma {:induction false} PermitsRunInv(job: Job, run: seq<World>, k: nat)
    requires job.clientBlockSize > 0 && job.serverBlockSize > 0 && IsWorldRun(job, run) && k < |run|
    ensures run[k].started <= |job.plan| == |run[k].sessions| && InFlight(run[k].sessions, run[k].started) <= 10
  {
    hide WorldStep;
    if k > 0 {
      PermitsRunInv(job, run, k - 1);
      var w, w' := run[k - 1], run[k];
      assert WorldStep(job, w, w');
      hide IsWorldRun;
      PermitsStep(job, w, w');
    }
  }

  lemma PermitsStep(job: Job, w: World, w': World)
    requires job.clientBlockSize > 0 && job.serverBlockSize > 0 && WorldStep(job, w, w')
    requires w.started <= |job.plan| == |w.sessions| && InFlight(w.sessions, w.started) <= 10
    ensures w'.started <= |job.plan| == |w'.sessions| && InFlight(w'.sessions, w'.started) <= 10
  {
    hide SessionStep;
    if !StartStep(job, w, w') {
      var i: nat :| MoveStep(job, w, i, w');
      StepsNeverRestart(job.SessionAt(i), w.clientFiles, w.serverFiles, w.sessions[i],
                        w'.clientFiles, w'.serverFiles, w'.sessions[i]);
      InFlightSame(w.sessions, w'.sessions, i, w.started);
    }
  }

  /** In every state of every execution, of any plan, at most ten client tasks run, and the
      next action can start exactly when fewer than ten do. */
  lemma AtMostTenRun(job: Job, run: seq<World>, k: nat)
    requires job.clientBlockSize > 0 && job.serverBlockSize > 0 && IsWorldRun(job, run) && k < |run|
    ensures run[k].started <= |job.plan| == |run[k].sessions|
    ensures |set i | 0 <= i < run[k].started && run[k].sessions[i].client.status.Running?| <= 10
    ensures (exists w' :: StartStep(job, run[k], w')) <==>
      run[k].started < |job.plan|
      && |set i | 0 <= i < run[k].started && run[k].sessions[i].client.status.Running?| < 10
  {
    PermitsRunInv(job, run, k);
    var w := run[k];
    InFlightIs(w.sessions, w.started);
    hide InFlight, IsWorldRun;
    if w.started < |job.plan| && InFlight(w.sessions, w.started) < 10 {
      assert StartStep(job, w, w.(started := w.started + 1));
    }
  }

  lemma {:induction false} SkipCountMonotone(plan: seq<FileAction>, m: nat, n: nat)
    requires m <= n <= |plan|
    ensures SkipCount(plan, m) <= SkipCount(plan, n)
  {
    if m < n { SkipCountMonotone(plan, m, n - 1); }
  }

  lemma OneMoves(job: Job, w: World, i: nat)
    requires job.Valid() && WorldInv(job, w) && NoSessionAborted(w)
    requires i < w.started && !TransferOver(job, w, i)
    ensures exists w' :: WorldStep(job, w, w') && NoSessionAborted(w')
  {
    var c, x := job.SessionAt(i), Config(w.clientFiles, w.serverFiles, w.sessions[i]);
    assert ValidSession(c) && SessionInv(c, w.clientFiles, w.serverFiles, w.sessions[i]) && NoneAborted(w.sessions[i]);
    hide InFlight, SessionInv, NoneAborted, Over, ValidSession, DistinctPaths, DisksInv, InitialState, TempPath, SessionStep;
    ProgressFrom(c, x);
    var y :| Next(c, x, y) && NoneAborted(y.state);
    MoveOne(job, w, i, y);
  }

  lemma MoveOne(job: Job, w: World, i: nat, y: Config)
    requires job.clientBlockSize > 0 && job.serverBlockSize > 0 && NoSessionAborted(w) && NoneAborted(y.state)
    requires i < w.started <= |job.plan| == |w.sessions|
    requires Next(job.SessionAt(i), Config(w.clientFiles, w.serverFiles, w.sessions[i]), y)
    ensures exists w' :: WorldStep(job, w, w') && NoSessionAborted(w')
  {
    hide SessionStep, NoneAborted;
    var w' := World(y.clientFiles, y.serverFiles, w.sessions[i := y.state], w.started);
    assert MoveStep(job, w, i, w');
    assert WorldStep(job, w, w');
    assert NoSessionAborted(w');
  }

  lemma MovesNeverRevive(job: Job, w: World, i: nat, w': World)
    requires job.clientBlockSize > 0 && job.serverBlockSize > 0
    requires MoveStep(job, w, i, w') && NoSessionAborted(w')
    ensures NoSessionAborted(w)
  {
    StepsNeverRestart(job.SessionAt(i), w.clientFiles, w.serverFiles, w.sessions[i],
                      w'.clientFiles, w'.serverFiles, w'.sessions[i]);
    hide SessionStep, NoneAborted;
    forall j | 0 <= j < |w.sessions| ensures NoneAborted(w.sessions[j]) {
      assert NoneAborted(w'.sessions[j]);
    }
  }

  lemma StartNeedsPermit(job: Job, w: World, w': World, m: nat)
    requires job.Valid() && SkipsInv(job, w) && StartStep(job, w, w') && NoSessionAborted(w')
    requires m <= |job.plan| && SkipCount(job.plan, m) >= 10
    ensures NoSessionAborted(w) && w.started != m && w'.started == w.started + 1
  {
    hide SkipCount, NoneAborted;
    assert w.sessions == w'.sessions;
    assert NoSessionAborted(w);
    hide SkipsInv, Job.Valid, InFlight, NoSessionAborted;
    if w.started == m {
      SkipsHoldPermits(job, w, m);
    }
  }

  /** Ten Skips hold all ten permits: unless a session aborts, no action after the tenth Skip
      of a plan is ever started, in any execution. */
  lemma {:induction false} TenSkipsBlock(job: Job, run: seq<World>, k: nat, m: nat)
    requires job.Valid() && IsWorldRun(job, run) && k < |run| && m <= |job.plan|
    requires SkipCount(job.plan, m) >= 10
    requires NoSessionAborted(run[k])
    ensures run[k].started <= m
    decreases k
  {
    hide *;
    if k == 0 {
      WorldRunStarts(job, run);
    } else {
      SkipsRunInv(job, run, k - 1);
      var i := WorldRunSteps(job, run, k);
      var w, w' := run[k - 1], run[k];
      if StartStep(job, w, w') {
        StartNeedsPermit(job, w, w', m);
        TenSkipsBlock(job, run, k - 1, m);
      } else {
        MovesNeverRevive(job, w, i, w');
        TenSkipsBlock(job, run, k - 1, m);
        MoveStarts(job, w, i, w');
      }
    }
  }

  lemma MoveStarts(job: Job, w: World, i: nat, w': World)
    requires job.clientBlockSize > 0 && job.serverBlockSize > 0 && MoveStep(job, w, i, w')
    ensures w'.started == w.started
  {
  }

  // ---------- Executions carried on as long as possible ----------

  /** Nothing was aborted, and every step left would abort something. */
  ghost predicate Stuck(job: Job, w: World)
    requires job.clientBlockSize > 0 && job.serverBlockSize > 0
  {
    NoSessionAborted(w) && !exists w' :: WorldStep(job, w, w') && NoSessionAborted(w')
  }

  /** Every transfer of the plan comes before its tenth Skip. */
  predicate TransfersPermitted(plan: seq<FileAction>) {
    forall i :: 0 <= i < |plan| && !plan[i].direction.Skip? ==> SkipCount(plan, i) < 10
  }

  /** A stuck execution has finished all it has started, and Skips hold every permit or
      nothing is left to start. */
  lemma StuckHoldsPermits(job: Job, w: World)
    requires job.Valid() && WorldInv(job, w) && Stuck(job, w)
    ensures |w.sessions| == |job.plan| && w.started <= |job.plan|
    ensures forall i :: 0 <= i < w.started ==> TransferOver(job, w, i)
    ensures w.started < |job.plan| ==> SkipCount(job.plan, w.started) >= 10
  {
    assert |w.sessions| == |job.plan| && w.started <= |job.plan|;
    hide WorldInv, Job.Valid, TransferOver, InFlight, SkipCount, WorldStep, NoSessionAborted;
    forall i | 0 <= i < w.started ensures TransferOver(job, w, i) {
      if !TransferOver(job, w, i) { OneMoves(job, w, i); }
    }
    WorldInvSkips(job, w);
    SkipsHoldPermits(job, w, w.started);
    if w.started < |job.plan| && InFlight(w.sessions, w.started) < 10 {
      OneStarts(job, w);
    }
  }

  lemma OneStarts(job: Job, w: World)
    requires job.clientBlockSize > 0 && job.serverBlockSize > 0 && NoSessionAborted(w)
    requires w.started < |job.plan| == |w.sessions| && InFlight(w.sessions, w.started) < 10
    ensures exists w' :: WorldStep(job, w, w') && NoSessionAborted(w')
  {
    hide InFlight, NoneAborted;
    var w' := w.(started := w.started + 1);
    assert StartStep(job, w, w');
    assert WorldStep(job, w, w') && NoSessionAborted(w');
  }

  /** Where an execution without aborts ends, whatever the interleaving: exactly the actions
      before the tenth Skip have been started, and every transfer among them is over. */
  lemma StuckExactly(job: Job, run: seq<World>, k: nat)
    requires job.Valid() && job.TempsClear() && IsWorldRun(job, run) && k < |run| && Stuck(job, run[k])
    ensures |run[k].sessions| == |job.plan|
    ensures forall i :: 0 <= i < |job.plan| ==> (i < run[k].started <==> SkipCount(job.plan, i) < 10)
    ensures forall i :: 0 <= i < run[k].started <= |job.plan| ==> TransferOver(job, run[k], i)
  {
    WorldRunInv(job, run, k);
    StuckHoldsPermits(job, run[k]);
    hide WorldInv, Job.Valid, IsWorldRun, TransferOver, WorldStep, SkipCount;
    forall i | 0 <= i < |job.plan| ensures i < run[k].started <==> SkipCount(job.plan, i) < 10 {
      if i < run[k].started {
        if SkipCount(job.plan, i) >= 10 { TenSkipsBlock(job, run, k, i); }
      } else {
        SkipCountMonotone(job.plan, run[k].started, i);
      }
    }
  }

  /** The exact condition under which Skips do no harm: an execution carried on until every
      further step would abort something has all its transfers over if and only if every
      transfer of the plan comes before its tenth Skip. */
  lemma TransfersOverExactly(job: Job, run: seq<World>, k: nat)
    requires job.Valid() && job.TempsClear() && IsWorldRun(job, run) && k < |run| && Stuck(job, run[k])
    ensures |run[k].sessions| == |job.plan|
    ensures TransfersOver(job, run[k]) <==> TransfersPermitted(job.plan)
  {
    WorldRunInv(job, run, k);
    StuckExactly(job, run, k);
    var w := run[k];
    assert forall i :: w.started <= i < |job.plan| ==> w.sessions[i] == InitialState(job.plan[i]);
    hide WorldInv, Job.Valid, IsWorldRun, WorldStep, SkipCount;
    forall i | 0 <= i < |job.plan|
      ensures TransferOver(job, w, i) <==> (job.plan[i].direction.Skip? || SkipCount(job.plan, i) < 10)
    {
      if i >= w.started { assert w.sessions[i] == InitialState(job.plan[i]); }
    }
  }

  /** Under that condition an execution is never stuck before its transfers are over. */
  lemma PermittedProgress(job: Job, run: seq<World>, k: nat)
    requires job.Valid() && job.TempsClear() && IsWorldRun(job, run) && k < |run| && TransfersPermitted(job.plan)
    requires NoSessionAborted(run[k]) && (|run[k].sessions| == |job.plan| ==> !TransfersOver(job, run[k]))
    ensures exists w' :: WorldStep(job, run[k], w') && NoSessionAborted(w')
  {
    hide Job.Valid, IsWorldRun, WorldStep, NoSessionAborted, TransfersOver, TransfersPermitted;
    if Stuck(job, run[k]) {
      TransfersOverExactly(job, run, k);
    }
  }

  // ---------- Termination ----------

  function ClockSum(sessions: seq<State>, n: nat): nat
    requires n <= |sessions|
  {
    if n == 0 then 0 else ClockSum(sessions, n - 1) + Clock(sessions[n - 1])
  }

  function BoundSum(job: Job, n: nat): nat
    requires job.Valid() && n <= |job.plan|
  {
    if n == 0 then 0
    else
      assert ValidSession(job.SessionAt(n - 1));
      BoundSum(job, n - 1) + ClockBound(job.SessionAt(n - 1))
  }

  lemma {:induction false} ClockSumTicks(x: seq<State>, y: seq<State>, i: nat, n: nat)
    requires i < |x| == |y| && n <= |x| && y == x[i := y[i]] && Clock(y[i]) > Clock(x[i])
    ensures ClockSum(y, n) >= ClockSum(x, n) + if i < n then 1 else 0
  {
    hide Clock;
    if n > 0 { ClockSumTicks(x, y, i, n - 1); }
  }

  lemma SessionAtInv(job: Job, w: World, i: nat)
    requires job.Valid() && WorldInv(job, w) && i < |job.plan|
    ensures |w.sessions| == |job.plan| && ValidSession(job.SessionAt(i))
    ensures SessionInv(job.SessionAt(i), w.clientFiles, w.serverFiles, w.sessions[i])
  {
    hide SessionInv, ValidSession, DisksInv, DistinctPaths, InFlight;
  }

  lemma SumsUnfold(job: Job, sessions: seq<State>, n: nat)
    requires job.Valid() && n <= |job.plan| && n <= |sessions|
    ensures n == 0 ==> ClockSum(sessions, n) == BoundSum(job, n) == 0
    ensures n > 0 ==>
      && ClockSum(sessions, n) == ClockSum(sessions, n - 1) + Clock(sessions[n - 1])
      && ValidSession(job.SessionAt(n - 1))
      && BoundSum(job, n) == BoundSum(job, n - 1) + ClockBound(job.SessionAt(n - 1))
  {
    hide Clock, ClockBound, ValidSession, DistinctPaths, TempPath;
  }

  lemma {:induction false} ClockSumBounded(job: Job, w: World, n: nat)
    requires job.Valid() && WorldInv(job, w) && n <= |job.plan|
    ensures ClockSum(w.sessions, n) <= BoundSum(job, n)
  {
    hide *;
    SumsUnfold(job, w.sessions, n);
    if n > 0 {
      ClockSumBounded(job, w, n - 1);
      SessionAtInv(job, w, n - 1);
      ClockIsBounded(job.SessionAt(n - 1), w.clientFiles, w.serverFiles, w.sessions[n - 1]);
    }
  }

  lemma WorldTicks(job: Job, w: World, w': World)
    requires job.Valid() && WorldInv(job, w) && WorldStep(job, w, w')
    ensures |w'.sessions| == |w.sessions|
    ensures w'.started + ClockSum(w'.sessions, |w'.sessions|) > w.started + ClockSum(w.sessions, |w.sessions|)
  {
    hide ClockSum, Clock, SessionInv, ValidSession, DisksInv, SessionStep, DistinctPaths, InFlight;
    if !StartStep(job, w, w') {
      var i: nat :| MoveStep(job, w, i, w');
      var c := job.SessionAt(i);
      assert ValidSession(c) && SessionInv(c, w.clientFiles, w.serverFiles, w.sessions[i]);
      SessionTicks(c, Config(w.clientFiles, w.serverFiles, w.sessions[i]),
                   Config(w'.clientFiles, w'.serverFiles, w'.sessions[i]));
      ClockSumTicks(w.sessions, w'.sessions, i, |w.sessions|);
    }
  }

  lemma SessionTicks(c: Session, x: Config, y: Config)
    requires ValidSession(c) && SessionInv(c, x.clientFiles, x.serverFiles, x.state) && Next(c, x, y)
    ensures Clock(y.state) > Clock(x.state)
  {
    assert x.state.up.Valid() && x.state.down.Valid();
    hide SessionInv, ValidSession, Clock;
    NextTicks(c, x, y);
  }

  /** With temporary files out of the way an execution has no more steps than a bound linear
      in the number of deltas, however its sessions interleave or abort. */
  lemma ClearRunsAreBounded(job: Job, run: seq<World>)
    requires job.Valid() && job.TempsClear() && IsWorldRun(job, run)
    ensures |run| <= |job.plan| + BoundSum(job, |job.plan|) + 1
  {
    var k := |run| - 1;
    WorldClockCounts(job, run, k);
    WorldRunInv(job, run, k);
    ClockSumBounded(job, run[k], |job.plan|);
  }

  lemma {:induction false} WorldClockCounts(job: Job, run: seq<World>, k: nat)
    requires job.Valid() && job.TempsClear() && IsWorldRun(job, run) && k < |run|
    ensures run[k].started + ClockSum(run[k].sessions, |run[k].sessions|) >= k
  {
    if k > 0 {
      WorldClockCounts(job, run, k - 1);
      WorldRunInv(job, run, k - 1);
      assert WorldStep(job, run[k - 1], run[k]);
      hide WorldStep, WorldInv, ClockSum, Job.Valid;
      WorldTicks(job, run[k - 1], run[k]);
    }
  }

  lemma ExtendWorldRun(job: Job, run: seq<World>, w: World)
    requires job.clientBlockSize > 0 && job.serverBlockSize > 0
    requires IsWorldRun(job, run) && WorldStep(job, run[|run| - 1], w)
    ensures IsWorldRun(job, run + [w])
  {
    hide WorldStep;
    forall k | 0 < k < |run + [w]| ensures WorldStep(job, (run + [w])[k - 1], (run + [w])[k]) {
      assert k < |run| ==> WorldStep(job, run[k - 1], run[k]);
    }
  }
}
