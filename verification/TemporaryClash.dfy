/** When temporary files are in the way: the exact condition under which interleaved sessions
    do what plain copies do. The runs that break it bring every session to its rename, one
    after the other, and then rename, one chosen file last. */
module TemporaryClash {
  import opened Messages
  import opened Writer
  import opened Protocol
  import opened SessionInvariant
  import opened SessionTheorems
  import opened SessionProgress
  import opened SessionRuns
  import opened Convergence
  import opened PlanExecution

  // ---------- One session at a time ----------

  /** The session of an action, begun on the disks as they are in `w`. */
  function SessionOn(job: Job, i: nat, w: World): Session
    requires i < |job.plan|
  {
    var a := job.plan[i];
    Session(job.h, a, job.clientBlockSize, job.serverBlockSize, FileAt(w.clientFiles, a.path), FileAt(w.serverFiles, a.path))
  }

  /** The session differs from the job's own only in the files it was begun on. */
  ghost predicate SameSession(job: Job, i: nat, c: Session)
    requires i < |job.plan|
  {
    c == job.SessionAt(i).(clientFile := c.clientFile, serverFile := c.serverFile)
  }

  /** A started session can make all the steps of a run with no other in between. */
  lemma {:induction false} RunAlone(job: Job, before: seq<World>, i: nat, c: Session, run: seq<Config>)
    returns (all: seq<World>)
    requires job.clientBlockSize > 0 && job.serverBlockSize > 0 && IsWorldRun(job, before)
    requires var w := before[|before| - 1]; i < w.started <= |job.plan| == |w.sessions|
    requires SameSession(job, i, c) && ValidSession(c) && IsRun(c, run)
    requires var w := before[|before| - 1]; run[0] == Config(w.clientFiles, w.serverFiles, w.sessions[i])
    ensures IsWorldRun(job, all)
    ensures var w, x := before[|before| - 1], run[|run| - 1];
      all[|all| - 1] == World(x.clientFiles, x.serverFiles, w.sessions[i := x.state], w.started)
    decreases |run|
  {
    var w, n := before[|before| - 1], |run| - 1;
    if n == 0 {
      all := before;
      assert w.sessions == w.sessions[i := w.sessions[i]];
    } else {
      RunIsSteps(c, run, n);
      PrefixIsRun(c, run, n - 1);
      var first := run[..n];
      assert first[|first| - 1] == run[n - 1] && first[0] == run[0];
      hide ValidSession, IsRun, Next, SessionStep, IsWorldRun;
      all := RunAlone(job, before, i, c, first);
      var v' := World(run[n].clientFiles, run[n].serverFiles, w.sessions[i := run[n].state], w.started);
      AloneMoves(job, i, c, all[|all| - 1], run[n], v');
      ExtendWorldRun(job, all, v');
      all := all + [v'];
    }
  }

  lemma AloneMoves(job: Job, i: nat, c: Session, v: World, y: Config, v': World)
    requires job.clientBlockSize > 0 && job.serverBlockSize > 0
    requires i < v.started <= |job.plan| == |v.sessions| && SameSession(job, i, c)
    requires Next(c, Config(v.clientFiles, v.serverFiles, v.sessions[i]), y)
    requires v' == World(y.clientFiles, y.serverFiles, v.sessions[i := y.state], v.started)
    ensures WorldStep(job, v, v')
  {
    hide LocalStep;
    assert MoveStep(job, v, i, v');
  }

  // ---------- Every session brought to its rename ----------

  function DiskOf(w: World, d: Direction): Files { if d.Upload? then w.serverFiles else w.clientFiles }

  /** A session that skips its file, its action sent and taken. */
  predicate QuietSkip(s: State, aborted: bool) {
    && s.client.work == [] && s.server.work == [] && s.client.writer.Idle? && s.server.writer.Idle?
    && s.up.taken >= |s.up.sent| && s.down.taken >= |s.down.sent|
    && s.server.status == Running && s.client.status == if aborted then Aborted else Running
  }

  ghost predicate Brought(job: Job, w: World, i: nat, abortSkips: bool)
    requires i < |job.plan| == |w.sessions|
  {
    if job.plan[i].direction.Skip? then QuietSkip(w.sessions[i], abortSkips)
    else Ripe(job.SessionAt(i), w.sessions[i]) && TempPath(job.plan[i].path) in DiskOf(w, job.plan[i].direction)
  }

  /** The started sessions are all at their rename or quiet, and no file has gone. */
  ghost predicate AllBrought(job: Job, w: World, abortSkips: bool)
    ensures AllBrought(job, w, abortSkips) ==> w.started <= |job.plan| == |w.sessions|
  {
    && w.started <= |job.plan| == |w.sessions|
    && (forall i :: 0 <= i < w.started ==> Brought(job, w, i, abortSkips))
    && (forall i :: w.started <= i < |job.plan| ==> w.sessions[i] == InitialState(job.plan[i]))
    && DisksInv(job, w)
    && job.clientFiles.Keys <= w.clientFiles.Keys && job.serverFiles.Keys <= w.serverFiles.Keys
    && InFlight(w.sessions, w.started) <= if abortSkips then 0 else SkipCount(job.plan, w.started)
  }

  lemma {:induction false} InFlightPrefix(x: seq<State>, y: seq<State>, n: nat)
    requires n <= |x| && n <= |y| && forall i :: 0 <= i < n ==> x[i] == y[i]
    ensures InFlight(x, n) == InFlight(y, n)
  {
    if n > 0 { InFlightPrefix(x, y, n - 1); }
  }

  /** A session that skips its file can send its action, have it taken, and abort. */
  lemma SkipRunExists(c: Session, cf: Files, sf: Files, abort: bool) returns (run: seq<Config>)
    requires ValidSession(c) && c.action.direction.Skip?
    requires FileAt(cf, c.action.path) == c.clientFile && FileAt(sf, c.action.path) == c.serverFile
    ensures IsRun(c, run) && run[0] == Config(cf, sf, InitialState(c.action))
    ensures var x := run[|run| - 1]; x.clientFiles == cf && x.serverFiles == sf && QuietSkip(x.state, abort)
  {
    var s := InitialState(c.action);
    var sent := s.(client := s.client.(work := []), up := Channel([Payload.Action(c.action)], 0));
    var taken := sent.(up := Channel([Payload.Action(c.action)], 1));
    var stopped := taken.(client := taken.client.(status := Aborted));
    assert s.client.work[1..] == [];
    assert WorkStep(c.h, c.clientBlockSize, ClientLocal(cf, s), ClientLocal(cf, sent));
    assert ReceiveStep(c.h, c.serverBlockSize, ServerLocal(sf, sent), ServerLocal(sf, taken));
    assert AbortStep(ClientLocal(cf, taken), ClientLocal(cf, stopped));
    run := [Config(cf, sf, s), Config(cf, sf, sent), Config(cf, sf, taken)];
    hide WorkStep, ReceiveStep, AbortStep, WriterStep;
    assert Next(c, run[0], run[1]) && Next(c, run[1], run[2]);
    if abort {
      run := run + [Config(cf, sf, stopped)];
      assert Next(c, run[2], run[3]);
    }
  }

  /** What bringing the next session to its rename leaves as it was. */
  lemma BroughtKeeps(job: Job, w: World, v: World, abortSkips: bool)
    requires job.Valid() && AllBrought(job, w, abortSkips) && w.started < |job.plan| == |v.sessions|
    requires v.started == w.started + 1 && v.sessions == w.sessions[w.started := v.sessions[w.started]]
    requires OnlyTouches(job, w.started, w, v) && Brought(job, v, w.started, abortSkips)
    requires w.clientFiles.Keys <= v.clientFiles.Keys && w.serverFiles.Keys <= v.serverFiles.Keys
    ensures AllBrought(job, v, abortSkips)
  {
    var n := w.started;
    BroughtInFlight(job, w, v, abortSkips);
    hide Job.Valid, Ripe, InFlight, SkipCount, QuietSkip, TempPath;
    forall i | 0 <= i < v.started ensures Brought(job, v, i, abortSkips) {
      if i < n { assert Brought(job, w, i, abortSkips); }
    }
    var u := w.(started := v.started);
    assert DisksInv(job, u) by {
      hide OnlyTouches, Brought;
      forall d, p | Touched(job, w.started, d, p) ensures Touched(job, u.started, d, p) {}
    }
    hide DisksInv;
    MoveKeepsDisks(job, u, n, v);
  }

  lemma BroughtInFlight(job: Job, w: World, v: World, abortSkips: bool)
    requires job.Valid() && AllBrought(job, w, abortSkips) && w.started < |job.plan| == |v.sessions|
    requires v.started == w.started + 1 && v.sessions == w.sessions[w.started := v.sessions[w.started]]
    requires Brought(job, v, w.started, abortSkips)
    ensures InFlight(v.sessions, v.started) <= if abortSkips then 0 else SkipCount(job.plan, v.started)
  {
    hide Job.Valid, DisksInv, TempPath;
    InFlightPrefix(w.sessions, v.sessions, w.started);
  }

  /** The next session can be started and brought to its rename. */
  lemma BringNext(job: Job, before: seq<World>, abortSkips: bool) returns (all: seq<World>)
    requires job.Valid() && IsWorldRun(job, before) && AllBrought(job, before[|before| - 1], abortSkips)
    requires var n := before[|before| - 1].started;
      n < |job.plan| && (abortSkips || SkipCount(job.plan, n) < 10)
    ensures IsWorldRun(job, all) && AllBrought(job, all[|all| - 1], abortSkips)
    ensures all[|all| - 1].started == before[|before| - 1].started + 1
  {
    var w := before[|before| - 1];
    var n, u := w.started, w.(started := w.started + 1);
    var c := SessionOn(job, n, w);
    assert ValidSession(job.SessionAt(n));
    SourcesStay(job, w, n);
    assert StartStep(job, w, u);
    hide Job.Valid, ValidSession, IsRun, DisksInv, InFlight, SkipCount, Ripe, QuietSkip, TempPath, IsWorldRun, Framed;
    ExtendWorldRun(job, before, u);
    var run;
    if c.action.direction.Skip? {
      run := SkipRunExists(c, w.clientFiles, w.serverFiles, abortSkips);
    } else {
      run := RipeRunExists(c, w.clientFiles, w.serverFiles);
    }
    all := RunAlone(job, before + [u], n, c, run);
    RipeOn(job, n, c, run[|run| - 1].state);
    FramedItself(c.action.path, w.clientFiles);
    FramedItself(c.action.path, w.serverFiles);
    BroughtKeeps(job, w, all[|all| - 1], abortSkips);
  }

  lemma FramedItself(p: Path, files: Files)
    ensures Framed(p, files, files)
  {
  }

  lemma RipeOn(job: Job, i: nat, c: Session, s: State)
    requires i < |job.plan| && SameSession(job, i, c)
    ensures Ripe(c, s) <==> Ripe(job.SessionAt(i), s)
  {
  }

  /** While no file goes, every source is there. */
  lemma SourcesStay(job: Job, w: World, i: nat)
    requires i < |job.plan| && ValidSession(job.SessionAt(i))
    requires job.clientFiles.Keys <= w.clientFiles.Keys && job.serverFiles.Keys <= w.serverFiles.Keys
    ensures ValidSession(SessionOn(job, i, w)) && SameSession(job, i, SessionOn(job, i, w))
  {
  }

  /** All sessions that can be started are started and brought to their renames. */
  lemma {:induction false} BringAll(job: Job, before: seq<World>, abortSkips: bool) returns (all: seq<World>)
    requires job.Valid() && IsWorldRun(job, before) && AllBrought(job, before[|before| - 1], abortSkips)
    ensures IsWorldRun(job, all) && AllBrought(job, all[|all| - 1], abortSkips)
    ensures var n := all[|all| - 1].started;
      n <= |job.plan| && (n < |job.plan| ==> !abortSkips && SkipCount(job.plan, n) >= 10)
    decreases |job.plan| - before[|before| - 1].started
  {
    hide Job.Valid, IsWorldRun, DisksInv, InFlight, SkipCount, Brought;
    var n := before[|before| - 1].started;
    if n < |job.plan| && (abortSkips || SkipCount(job.plan, n) < 10) {
      var more := BringNext(job, before, abortSkips);
      all := BringAll(job, more, abortSkips);
    } else {
      all := before;
    }
  }

  // ---------- The renames ----------

  /** The sessions of `renamed` are over, the others still at their rename. */
  ghost predicate Renaming(job: Job, w: World, renamed: set<nat>, abortSkips: bool)
    ensures Renaming(job, w, renamed, abortSkips) ==> w.started <= |job.plan| == |w.sessions|
  {
    && w.started <= |job.plan| == |w.sessions|
    && (forall i :: 0 <= i < w.started ==>
          if i in renamed then Finished(job, w, i, abortSkips) else Brought(job, w, i, abortSkips))
    && (forall i :: w.started <= i < |job.plan| ==> w.sessions[i] == InitialState(job.plan[i]))
    && DisksInv(job, w) && InFlight(w.sessions, w.started) <= if abortSkips then 0 else SkipCount(job.plan, w.started)
  }

  ghost predicate Finished(job: Job, w: World, i: nat, abortSkips: bool)
    requires i < |job.plan| == |w.sessions|
  {
    if job.plan[i].direction.Skip? then QuietSkip(w.sessions[i], abortSkips)
    else Over(job.SessionAt(i), w.sessions[i]) && Sender(job.SessionAt(i), w.sessions[i]).writer.Idle?
  }

  /** The last step of a session that is at its rename. */
  lemma RenameStep(c: Session, x: Config) returns (y: Config)
    requires ValidSession(c) && !c.action.direction.Skip? && Ripe(c, x.state)
    requires TempPath(c.action.path) in ReceiverFiles(c, x)
    ensures Next(c, x, y) && Over(c, y.state) && Sender(c, y.state) == Sender(c, x.state)
    ensures y.state.client.status == x.state.client.status
    ensures Framed(c.action.path, x.clientFiles, y.clientFiles) && Framed(c.action.path, x.serverFiles, y.serverFiles)
    ensures !c.action.direction.Download? ==> y.clientFiles == x.clientFiles
    ensures !c.action.direction.Upload? ==> y.serverFiles == x.serverFiles
    ensures TempPath(c.action.path) !in ReceiverFiles(c, y)
    ensures forall p :: p in ReceiverFiles(c, x) && p != TempPath(c.action.path) ==> p in ReceiverFiles(c, y)
  {
    var l := ReceiverLocal(c, x);
    assert TempPath(c.action.path) != c.action.path;
    hide TempPath;
    var l' := WriterMoves(l);
    WriterOnly(c, x, l, l');
    y := Placed(x, !c.action.direction.Upload?, l');
  }

  /** What one rename leaves as it was: the others' sessions and temporary files. */
  lemma RenamingKept(job: Job, w: World, v: World, renamed: set<nat>, i: nat, abortSkips: bool)
    requires job.Valid() && Renaming(job, w, renamed, abortSkips)
    requires i < w.started == v.started && i !in renamed && !job.plan[i].direction.Skip? && |v.sessions| == |w.sessions|
    requires v.sessions == w.sessions[i := v.sessions[i]] && Finished(job, v, i, abortSkips)
    requires v.sessions[i].client.status == w.sessions[i].client.status
    requires OnlyTouches(job, i, w, v)
    requires forall d, p :: p in DiskOf(w, d) && p != TempPath(job.plan[i].path) ==> p in DiskOf(v, d)
    ensures Renaming(job, v, renamed + {i}, abortSkips)
  {
    hide Job.Valid, Finished, Brought, TempPath, DisksInv, InFlight, SkipCount, OnlyTouches, DiskOf;
    MoveKeepsDisks(job, w, i, v);
    InFlightSame(w.sessions, v.sessions, i, w.started);
    forall j | 0 <= j < v.started
      ensures if j in renamed + {i} then Finished(job, v, j, abortSkips) else Brought(job, v, j, abortSkips)
    {
      if j != i { OtherKept(job, w, v, i, j, abortSkips); }
    }
  }

  lemma OtherKept(job: Job, w: World, v: World, i: nat, j: nat, abortSkips: bool)
    requires job.Valid() && i < |job.plan| && j < |job.plan| == |w.sessions| == |v.sessions| && i != j
    requires v.sessions[j] == w.sessions[j]
    requires forall d, p :: p in DiskOf(w, d) && p != TempPath(job.plan[i].path) ==> p in DiskOf(v, d)
    ensures Finished(job, w, j, abortSkips) ==> Finished(job, v, j, abortSkips)
    ensures Brought(job, w, j, abortSkips) ==> Brought(job, v, j, abortSkips)
  {
    TempsAreOneEach(job, i, j);
    hide Job.Valid, Ripe, Over, TempPath, QuietSkip, DiskOf;
  }

  /** One rename: its temporary file goes, all others stay. */
  lemma RenameOne(job: Job, before: seq<World>, renamed: set<nat>, i: nat, abortSkips: bool) returns (all: seq<World>)
    requires job.Valid() && IsWorldRun(job, before) && Renaming(job, before[|before| - 1], renamed, abortSkips)
    requires i < before[|before| - 1].started && i !in renamed && !job.plan[i].direction.Skip?
    ensures IsWorldRun(job, all) && Renaming(job, all[|all| - 1], renamed + {i}, abortSkips)
    ensures all[|all| - 1].started == before[|before| - 1].started
    ensures TempPath(job.plan[i].path) !in DiskOf(all[|all| - 1], job.plan[i].direction)
  {
    var w := before[|before| - 1];
    hide *;
    var v := RenameMove(job, w, renamed, i, abortSkips);
    ExtendWorldRun(job, before, v);
    all := before + [v];
    RenamingKept(job, w, v, renamed, i, abortSkips);
  }

  lemma RenameMove(job: Job, w: World, renamed: set<nat>, i: nat, abortSkips: bool) returns (v: World)
    requires job.Valid() && Renaming(job, w, renamed, abortSkips)
    requires i < w.started && i !in renamed && !job.plan[i].direction.Skip?
    ensures WorldStep(job, w, v) && v.started == w.started && |v.sessions| == |w.sessions|
    ensures v.sessions == w.sessions[i := v.sessions[i]] && Finished(job, v, i, abortSkips)
    ensures v.sessions[i].client.status == w.sessions[i].client.status && OnlyTouches(job, i, w, v)
    ensures forall d, p :: p in DiskOf(w, d) && p != TempPath(job.plan[i].path) ==> p in DiskOf(v, d)
    ensures TempPath(job.plan[i].path) !in DiskOf(v, job.plan[i].direction)
  {
    var c := job.SessionAt(i);
    assert ValidSession(c) && Brought(job, w, i, abortSkips);
    hide Job.Valid, Renaming, ValidSession, Over, TempPath, WorldStep, Next, Framed;
    var x := Config(w.clientFiles, w.serverFiles, w.sessions[i]);
    var y := RenameStep(c, x);
    v := World(y.clientFiles, y.serverFiles, w.sessions[i := y.state], w.started);
    AloneMoves(job, i, c, w, y, v);
  }

  lemma TempsAreOneEach(job: Job, i: nat, j: nat)
    requires job.Valid() && i < |job.plan| && j < |job.plan| && i != j
    ensures TempPath(job.plan[i].path) != TempPath(job.plan[j].path)
  {
    assert ValidSession(job.SessionAt(i)) && ValidSession(job.SessionAt(j));
    if TempPath(job.plan[i].path) == TempPath(job.plan[j].path) {
      TempPathInjective(job.plan[i].path, job.plan[j].path);
    }
  }

  function Before(n: nat, last: nat): (r: set<nat>)
    ensures forall k: nat :: k in r <==> k < n && k != last
  {
    if n == 0 then {} else if n - 1 == last then Before(n - 1, last) else Before(n - 1, last) + {n - 1}
  }

  /** All renames but that of `last`. */
  lemma {:induction false} RenameOthers(job: Job, before: seq<World>, last: nat, n: nat, abortSkips: bool)
    returns (all: seq<World>)
    requires job.Valid() && IsWorldRun(job, before) && AllBrought(job, before[|before| - 1], abortSkips)
    requires n <= before[|before| - 1].started
    ensures IsWorldRun(job, all) && Renaming(job, all[|all| - 1], Before(n, last), abortSkips)
    ensures all[|all| - 1].started == before[|before| - 1].started
    decreases n
  {
    hide Job.Valid, IsWorldRun, DisksInv, InFlight, SkipCount, Ripe, Over, QuietSkip, TempPath;
    if n == 0 {
      all := before;
    } else {
      all := RenameOthers(job, before, last, n - 1, abortSkips);
      var renamed := Before(n - 1, last);
      if n - 1 != last {
        if !job.plan[n - 1].direction.Skip? {
          all := RenameOne(job, all, renamed, n - 1, abortSkips);
        }
      }
    }
  }

  /** There is an execution that starts all it can, in which every started transfer comes to
      its end, and the one chosen as last has renamed away whatever was at its temporary file's
      path. Without aborts of Skips it is stuck there. */
  lemma RenamedLast(job: Job, last: nat, abortSkips: bool) returns (run: seq<World>)
    requires job.Valid()
    ensures IsWorldRun(job, run)
    ensures var w := run[|run| - 1];
      && StartedOver(job, w) && DisksInv(job, w)
      && (w.started < |job.plan| ==> !abortSkips && SkipCount(job.plan, w.started) >= 10)
      && (forall i :: w.started <= i < |job.plan| ==> w.sessions[i] == InitialState(job.plan[i]))
      && (last < w.started && !job.plan[last].direction.Skip? ==>
            TempPath(job.plan[last].path) !in DiskOf(w, job.plan[last].direction))
      && (!abortSkips ==> Stuck(job, w))
  {
    hide *;
    BeginBrought(job, abortSkips);
    run := BringAll(job, [Begin(job)], abortSkips);
    var n := run[|run| - 1].started;
    run := RenameOthers(job, run, last, n, abortSkips);
    var renamed := Before(n, last);
    if last < n && !job.plan[last].direction.Skip? {
      run := RenameOne(job, run, renamed, last, abortSkips);
      renamed := renamed + {last};
    }
    RenamedAll(job, run[|run| - 1], renamed, abortSkips);
  }

  lemma BeginBrought(job: Job, abortSkips: bool)
    requires job.Valid()
    ensures IsWorldRun(job, [Begin(job)]) && AllBrought(job, Begin(job), abortSkips)
  {
    hide Job.Valid, TempPath;
  }

  lemma RenamedAll(job: Job, w: World, renamed: set<nat>, abortSkips: bool)
    requires job.Valid() && Renaming(job, w, renamed, abortSkips)
    requires forall i :: 0 <= i < w.started ==> i in renamed || job.plan[i].direction.Skip?
    requires w.started < |job.plan| ==> !abortSkips && SkipCount(job.plan, w.started) >= 10
    ensures StartedOver(job, w) && DisksInv(job, w)
    ensures forall i :: w.started <= i < |job.plan| ==> w.sessions[i] == InitialState(job.plan[i])
    ensures !abortSkips ==> Stuck(job, w)
  {
    hide Job.Valid, DisksInv, InFlight, SkipCount, Ripe, Over, QuietSkip, TempPath, Stuck;
    forall i | 0 <= i < w.started ensures Finished(job, w, i, abortSkips) {
      assert i in renamed ==> Finished(job, w, i, abortSkips);
      assert i !in renamed ==> Brought(job, w, i, abortSkips);
    }
    if !abortSkips {
      FinishedIsStuck(job, w);
    }
  }

  /** A finished session has no step left that aborts nothing. */
  lemma FinishedIsStill(job: Job, w: World, i: nat, w': World)
    requires job.clientBlockSize > 0 && job.serverBlockSize > 0
    requires MoveStep(job, w, i, w') && Finished(job, w, i, false)
    ensures !NoneAborted(w'.sessions[i])
  {
  }

  lemma FinishedNoneAborted(job: Job, w: World, i: nat)
    requires i < |job.plan| == |w.sessions| && Finished(job, w, i, false)
    ensures NoneAborted(w.sessions[i])
  {
  }

  lemma FinishedIsStuck(job: Job, w: World)
    requires job.Valid() && w.started <= |job.plan| == |w.sessions|
    requires forall i :: 0 <= i < w.started ==> Finished(job, w, i, false)
    requires forall i :: w.started <= i < |job.plan| ==> w.sessions[i] == InitialState(job.plan[i])
    requires w.started < |job.plan| ==> SkipCount(job.plan, w.started) >= 10
    ensures Stuck(job, w)
  {
    FinishedHoldPermits(job, w, w.started);
    hide Job.Valid, Finished, InFlight, SkipCount, MoveStep;
    assert NoSessionAborted(w) by {
      forall i | 0 <= i < |w.sessions| ensures NoneAborted(w.sessions[i]) {
        if i < w.started { FinishedNoneAborted(job, w, i); }
      }
    }
    forall w' | WorldStep(job, w, w') ensures !NoSessionAborted(w') {
      if !StartStep(job, w, w') {
        var i: nat :| MoveStep(job, w, i, w');
        StillAborts(job, w, i, w');
      }
    }
  }

  lemma StillAborts(job: Job, w: World, i: nat, w': World)
    requires job.clientBlockSize > 0 && job.serverBlockSize > 0 && MoveStep(job, w, i, w')
    requires forall i :: 0 <= i < w.started <= |w.sessions| == |job.plan| ==> Finished(job, w, i, false)
    ensures !NoSessionAborted(w')
  {
    assert Finished(job, w, i, false) && i < |w'.sessions|;
    hide Finished, SessionStep, NoneAborted;
    FinishedIsStill(job, w, i, w');
  }

  lemma {:induction false} FinishedHoldPermits(job: Job, w: World, n: nat)
    requires n <= w.started <= |job.plan| == |w.sessions|
    requires forall i :: 0 <= i < w.started ==> Finished(job, w, i, false)
    ensures InFlight(w.sessions, n) == SkipCount(job.plan, n)
  {
    if n > 0 {
      FinishedHoldPermits(job, w, n - 1);
      assert Finished(job, w, n - 1, false);
    }
  }

  // ---------- The exact condition ----------

  lemma {:induction false} ExecuteKeepsKeys(r: Replicas, plan: seq<FileAction>)
    ensures r.server.Keys <= Execute(r, plan).server.Keys && r.client.Keys <= Execute(r, plan).client.Keys
    decreases |plan|
  {
    if plan != [] { ExecuteKeepsKeys(r, plan[..|plan| - 1]); }
  }

  /** Plain copies leave something at the path that is in the way. */
  lemma ExecuteHolds(job: Job, i: nat)
    requires job.Valid() && i < |job.plan| && !job.plan[i].direction.Skip? && !job.TempClear(i)
    ensures var e := Execute(Beginning(job), job.plan);
      TempPath(job.plan[i].path) in if job.plan[i].direction.Upload? then e.server else e.client
  {
    var q, d := TempPath(job.plan[i].path), job.plan[i].direction;
    ExecuteKeepsKeys(Beginning(job), job.plan);
    if q !in job.Receiving(d) {
      var j :| 0 <= j < |job.plan| && job.plan[j].direction == d && job.plan[j].path == q;
      assert ValidSession(job.SessionAt(j));
      ExecuteAt(Beginning(job), job.plan, j);
      var e := Execute(Beginning(job), job.plan);
      hide Execute, TempPath, Job.Valid, DistinctPaths;
      assert Pair(e, q) == Pair(Perform(Beginning(job), job.plan[j]), q);
      assert FileAt(if d.Upload? then e.server else e.client, q).Some?;
    }
  }

  /** All the started actions are done on both disks as by plain copies. */
  ghost predicate DoneAsCopies(job: Job, w: World) {
    w.started <= |job.plan| && Disks(w) == Execute(Beginning(job), job.plan[..w.started])
  }

  /** The exact condition under which temporary files are not in the way. In every state of
      every execution in which all that was started has come to its end, both disks hold what
      copying the started actions one at a time gives, if and only if no transfer's temporary
      file is a file of the disk that receives it or the target of another transfer to it. */
  lemma DoneAsCopiesExactly(job: Job)
    requires job.Valid() && job.CollisionFree()
    ensures job.TempsClear() <==>
      forall run, k :: IsWorldRun(job, run) && 0 <= k < |run| && StartedOver(job, run[k]) ==> DoneAsCopies(job, run[k])
  {
    if job.TempsClear() {
      forall run, k | IsWorldRun(job, run) && 0 <= k < |run| && StartedOver(job, run[k])
        ensures DoneAsCopies(job, run[k])
      {
        hide *;
        ClearIsDone(job, run, k);
      }
    } else {
      var run, i := ClashUndone(job);
      assert !DoneAsCopies(job, run[|run| - 1]);
    }
  }

  lemma ClearIsDone(job: Job, run: seq<World>, k: nat)
    requires job.Valid() && job.CollisionFree() && job.TempsClear()
    requires IsWorldRun(job, run) && k < |run| && StartedOver(job, run[k])
    ensures DoneAsCopies(job, run[k])
  {
    hide Job.Valid, Job.CollisionFree, Job.TempsClear, IsWorldRun, Execute, TransferOver;
    ConcurrentEqualsSequential(job, run, k);
  }

  /** With a temporary file in the way some execution ends with that path gone. Where every
      transfer comes before the tenth Skip it aborts nothing; else it aborts Skips. */
  lemma ClashUndone(job: Job) returns (run: seq<World>, i: nat)
    requires job.Valid() && !job.TempsClear()
    ensures IsWorldRun(job, run) && StartedOver(job, run[|run| - 1]) && !DoneAsCopies(job, run[|run| - 1])
    ensures i < |job.plan| && TempPath(job.plan[i].path) !in DiskOf(run[|run| - 1], job.plan[i].direction)
    ensures TransfersPermitted(job.plan) ==> Stuck(job, run[|run| - 1])
  {
    i :| 0 <= i < |job.plan| && !job.plan[i].direction.Skip? && !job.TempClear(i);
    ExecuteHolds(job, i);
    hide Job.Valid, Job.TempClear, IsWorldRun, TransferOver, TempPath, Execute, Stuck, DisksInv, SkipCount;
    run := RenamedLast(job, i, !TransfersPermitted(job.plan));
    var n := run[|run| - 1].started;
    forall k | n <= k < |job.plan| ensures job.plan[k].direction.Skip? {
      SkipCountMonotone(job.plan, n, k);
    }
    ExecuteSkips(Beginning(job), job.plan, n);
  }
}
