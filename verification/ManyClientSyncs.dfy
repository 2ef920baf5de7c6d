/** Many clients of one server, every sync of theirs an interleaving of sessions, messages
    and writes. */
module ManyClientSyncs {
  import opened Common
  import opened Messages
  import opened PathOrder
  import opened Signatures
  import opened DeltaScan
  import opened ScanProperties
  import opened Writer
  import opened SyncPlan
  import opened Convergence
  import opened OnePath
  import opened ManyClients
  import opened PlanExecution
  import opened PlanTermination
  import opened EndToEnd

  /** The conditions of `EndToEnd.SyncsExactly`. */
  ghost predicate Fit(job: Job) {
    Syncable(job) && TempsUnheld(job) && TransfersPermitted(job.plan)
  }

  /** An execution of a fit job, carried on until every further step would abort something. */
  ghost predicate WholeSync(job: Job, run: seq<World>)
    ensures WholeSync(job, run) ==> run != []
  {
    Fit(job) && IsWorldRun(job, run) && Stuck(job, run[|run| - 1])
  }

  /** Client `i` syncs with the server message by message. */
  ghost predicate WholeSyncStep(h: Hashes, x: System, i: nat, y: System) {
    && i < |x.clients|
    && exists job: Job, run: seq<World> :: WholeSync(job, run) && job.h == h
         && job.serverFiles == x.server && job.clientFiles == x.clients[i]
         && y == System(run[|run| - 1].serverFiles, x.clients[i := run[|run| - 1].clientFiles])
  }

  /** Every whole sync does what executing its plan by plain copies does. */
  lemma WholeSyncIsExecute(job: Job, run: seq<World>)
    requires WholeSync(job, run)
    ensures Disks(run[|run| - 1]) == Execute(Beginning(job), job.plan)
    ensures PlansFor(job.h, job.plan, job.serverFiles, job.clientFiles)
  {
    PlannedJobIsValid(job);
    PlannedTempsClear(job);
    assert job.CollisionFree() && PlansFor(job.h, job.plan, job.serverFiles, job.clientFiles);
    hide *;
    WholeSyncParts(job, run);
    var k := |run| - 1;
    TransfersOverExactly(job, run, k);
    WorldRunInv(job, run, k);
    AllOverIsWhole(job, run[k]);
    ConcurrentEqualsSequential(job, run, k);
  }

  lemma WholeSyncParts(job: Job, run: seq<World>)
    requires WholeSync(job, run)
    ensures Fit(job) && TransfersPermitted(job.plan) && job.clientBlockSize > 0 && job.serverBlockSize > 0
    ensures IsWorldRun(job, run) && Stuck(job, run[|run| - 1])
  {
    hide PlansFor, Job.CollisionFree, TempsUnheld, IsWorldRun, Stuck, TransfersPermitted, NoDigestCollision;
  }

  /** A whole sync is one step of the many-client system. */
  lemma WholeSyncIsSync(h: Hashes, x: System, i: nat, y: System)
    requires WholeSyncStep(h, x, i, y)
    ensures SyncStep(h, x, i, y)
  {
    hide WholeSync, PlansFor, Execute;
    var job: Job, run: seq<World> :| WholeSync(job, run) && job.h == h
         && job.serverFiles == x.server && job.clientFiles == x.clients[i]
         && y == System(run[|run| - 1].serverFiles, x.clients[i := run[|run| - 1].clientFiles]);
    WholeSyncIsExecute(job, run);
  }

  /** Two rounds of whole syncs. */
  ghost predicate WholeRounds(h: Hashes, x: System, run: seq<System>, who: seq<nat>, k: nat) {
    && |run| == |who| + 1 && (forall j :: 0 <= j < |who| ==> WholeSyncStep(h, run[j], who[j], run[j + 1]))
    && run[0] == x && k <= |who|
    && forall i :: 0 <= i < |x.clients| ==> i in who[..k] && i in who[k..]
  }

  lemma WholeRoundsAreRounds(h: Hashes, x: System, run: seq<System>, who: seq<nat>, k: nat)
    requires WholeRounds(h, x, run, who, k)
    ensures TwoRounds(h, x, run, who, k)
  {
    hide WholeSyncStep, SyncStep;
    forall j | 0 <= j < |who| ensures SyncStep(h, run[j], who[j], run[j + 1]) {
      WholeSyncIsSync(h, run[j], who[j], run[j + 1]);
    }
  }

  /** After two rounds of whole syncs, in any order, all replicas are equal and newest, if at
      every path some version stands out. */
  lemma ManyClientsConverge(h: Hashes, x: System, run: seq<System>, who: seq<nat>, k: nat)
    requires WholeRounds(h, x, run, who, k) && NewestStandsOut(h, x)
    ensures Converged(x, run[|run| - 1])
  {
    WholeRoundsAreRounds(h, x, run, who, k);
    hide WholeRounds, NewestStandsOut, Converged, SyncStep;
    ManyClientConvergence(h, run, who, k);
  }

  /** And all hold the same contents, timestamps aside, if at every path some version prevails. */
  lemma ManyClientsAgree(h: Hashes, x: System, run: seq<System>, who: seq<nat>, k: nat)
    requires WholeRounds(h, x, run, who, k) && NewestPrevails(h, x)
    ensures DigestsAgree(h, run[|run| - 1])
  {
    WholeRoundsAreRounds(h, x, run, who, k);
    hide WholeRounds, NewestPrevails, DigestsAgree, SyncStep;
    TwoRoundsAgreeExactly(h, x);
  }

  // ---------- Whole syncs for every sync ----------

  /** Every job that can come up, after any syncs of any clients, is fit. */
  ghost predicate ReachablyFit(h: Hashes, x: System, clientBlockSize: nat, serverBlockSize: nat) {
    forall run: seq<System>, who, k, i, plan ::
      IsSyncRun(h, run, who) && run[0] == x && 0 <= k < |run| && 0 <= i < |run[k].clients|
      && PlansFor(h, plan, run[k].server, run[k].clients[i]) ==>
        Fit(Job(h, plan, clientBlockSize, serverBlockSize, run[k].clients[i], run[k].server))
  }

  /** A sync whose job is fit can be carried out as a whole one. */
  lemma SyncIsWholeSync(h: Hashes, x: System, i: nat, y: System, clientBlockSize: nat, serverBlockSize: nat)
    requires SyncStep(h, x, i, y)
    requires forall plan :: PlansFor(h, plan, x.server, x.clients[i]) ==>
      Fit(Job(h, plan, clientBlockSize, serverBlockSize, x.clients[i], x.server))
    ensures WholeSyncStep(h, x, i, y)
  {
    var plan :| PlansFor(h, plan, x.server, x.clients[i])
      && var r := Execute(Replicas(x.server, x.clients[i]), plan); y == System(r.server, x.clients[i := r.client]);
    var job := Job(h, plan, clientBlockSize, serverBlockSize, x.clients[i], x.server);
    assert Fit(job);
    hide PlansFor, Execute, Fit, IsWorldRun, Stuck, WholeSync;
    var run := FitRunExists(job);
    WholeSyncIsExecute(job, run);
  }

  lemma FitRunExists(job: Job) returns (run: seq<World>)
    requires Fit(job)
    ensures WholeSync(job, run)
  {
    hide PlansFor, Job.CollisionFree, TempsUnheld, TransfersPermitted, IsWorldRun, Stuck, NoDigestCollision;
    run := StuckRunExists(job);
  }

  lemma RoundsAreWhole(h: Hashes, run: seq<System>, first: seq<nat>, second: seq<nat>,
                       clientBlockSize: nat, serverBlockSize: nat)
    requires IsSyncRun(h, run, first + second) && ReachablyFit(h, run[0], clientBlockSize, serverBlockSize)
    requires IsRound(first, |run[0].clients|) && IsRound(second, |run[0].clients|)
    ensures WholeRounds(h, run[0], run, first + second, |first|)
  {
    var who := first + second;
    assert who[..|first|] == first && who[|first|..] == second;
    hide SyncStep, WholeSyncStep, Fit, PlansFor;
    forall j | 0 <= j < |who| ensures WholeSyncStep(h, run[j], who[j], run[j + 1]) {
      assert SyncStep(h, run[j], who[j], run[j + 1]);
      assert who[j] < |run[j].clients| by { SyncerIsClient(h, run[j], who[j], run[j + 1]); }
      SyncIsWholeSync(h, run[j], who[j], run[j + 1], clientBlockSize, serverBlockSize);
    }
  }

  lemma SyncerIsClient(h: Hashes, x: System, i: nat, y: System)
    requires SyncStep(h, x, i, y)
    ensures i < |x.clients|
  {
  }

  /** Where every sync that can come up can be a whole one, the conditions on the versions are
      exact for whole syncs too: two rounds of them leave all replicas equal and newest, in
      every order and every interleaving, if and only if at every path some version stands out,
      and with the same contents if and only if at every path some version prevails. */
  lemma WholeRoundsExactly(h: Hashes, x: System, clientBlockSize: nat, serverBlockSize: nat)
    requires ReachablyFit(h, x, clientBlockSize, serverBlockSize)
    ensures NewestStandsOut(h, x) <==>
      forall run, who, k :: WholeRounds(h, x, run, who, k) ==> Converged(x, run[|run| - 1])
    ensures NewestPrevails(h, x) <==>
      forall run, who, k :: WholeRounds(h, x, run, who, k) ==> DigestsAgree(h, run[|run| - 1])
  {
    hide ReachablyFit, NewestStandsOut, NewestPrevails, Converged, DigestsAgree, WholeSyncStep, SyncStep, IsRound;
    forall run, who, k | WholeRounds(h, x, run, who, k)
      ensures NewestStandsOut(h, x) ==> Converged(x, run[|run| - 1])
      ensures NewestPrevails(h, x) ==> DigestsAgree(h, run[|run| - 1])
    {
      if NewestStandsOut(h, x) { ManyClientsConverge(h, x, run, who, k); }
      if NewestPrevails(h, x) { ManyClientsAgree(h, x, run, who, k); }
    }
    if !NewestStandsOut(h, x) {
      var run, first, second := BadRounds(h, x);
      RoundsAreWhole(h, run, first, second, clientBlockSize, serverBlockSize);
    }
    if !NewestPrevails(h, x) {
      var run, first, second := DisagreeingRounds(h, x);
      RoundsAreWhole(h, run, first, second, clientBlockSize, serverBlockSize);
    }
  }

  // ---------- A condition on the first versions ----------

  function KeysOf(clients: seq<Files>): set<Path> {
    if clients == [] then {} else clients[0].Keys + KeysOf(clients[1..])
  }

  function Held(x: System): set<Path> { x.server.Keys + KeysOf(x.clients) }

  lemma {:induction false} KeysOfHas(clients: seq<Files>, j: nat, p: Path)
    requires j < |clients| && p in clients[j]
    ensures p in KeysOf(clients)
    decreases |clients|
  {
    if j > 0 { KeysOfHas(clients[1..], j - 1, p); }
  }

  lemma HeldHas(x: System, p: Path, o: Option<File>)
    requires o in VersionsAt(x, p) && o.Some?
    ensures p in Held(x)
  {
    var j :| 0 <= j < |VersionsAt(x, p)| && VersionsAt(x, p)[j] == o;
    if j < |x.clients| { KeysOfHas(x.clients, j, p); }
  }

  /** The replicas do not all hold the same at the path. */
  ghost predicate Disputed(x: System, p: Path) {
    exists a, b :: a in VersionsAt(x, p) && b in VersionsAt(x, p) && a != b
  }

  function Earlier(x: System, p: Path): set<Path> {
    set q | q in Held(x) && PathLess(q, p)
  }

  /** One version can be sent to where the other is held. */
  ghost predicate Sendable(h: Hashes, a: File, b: Option<File>, blockSize: nat) {
    && blockSize > 0
    && |Chunks(ContentOr(b), blockSize)| <= TWO_TO_THE_32
    && NoCollision(h, Chunks(ContentOr(b), blockSize), a.content, blockSize)
    && (b.Some? && h.strong(a.content) == h.strong(b.value.content) ==> a.content == b.value.content)
  }

  /** No hashes collide, and a path on which the replicas differ comes among the first ten
      held paths and its temporary file has the path of no file. */
  ghost predicate FitVersions(h: Hashes, x: System, clientBlockSize: nat, serverBlockSize: nat) {
    && clientBlockSize > 0 && serverBlockSize > 0 && [] !in Held(x)
    && (forall p, a, b :: a in VersionsAt(x, p) && b in VersionsAt(x, p) && a.Some? ==>
          Sendable(h, a.value, b, clientBlockSize) && Sendable(h, a.value, b, serverBlockSize))
    && (forall p :: Disputed(x, p) ==> TempPath(p) !in Held(x) && |Earlier(x, p)| < 10)
  }

  /** The job is between replicas that hold only versions of the system. */
  ghost predicate JobOf(x: System, job: Job) {
    forall p :: FileAt(job.serverFiles, p) in VersionsAt(x, p) && FileAt(job.clientFiles, p) in VersionsAt(x, p)
  }

  lemma JobHolds(x: System, job: Job, p: Path)
    requires JobOf(x, job) && (p in job.serverFiles || p in job.clientFiles)
    ensures p in Held(x)
  {
    hide Held, VersionsAt;
    assert FileAt(job.serverFiles, p) in VersionsAt(x, p) && FileAt(job.clientFiles, p) in VersionsAt(x, p);
    if p in job.serverFiles {
      HeldHas(x, p, FileAt(job.serverFiles, p));
    } else {
      HeldHas(x, p, FileAt(job.clientFiles, p));
    }
  }

  lemma TransferIsDisputed(x: System, job: Job, i: nat)
    requires JobOf(x, job) && PlansFor(job.h, job.plan, job.serverFiles, job.clientFiles)
    requires i < |job.plan| && !job.plan[i].direction.Skip?
    ensures Disputed(x, job.plan[i].path)
  {
    var p := job.plan[i].path;
    assert FileAt(job.serverFiles, p) in VersionsAt(x, p) && FileAt(job.clientFiles, p) in VersionsAt(x, p);
    PlannedSource(job.h, job.plan, job.serverFiles, job.clientFiles, i);
    assert job.plan[i] == ActionFor(Listing(job.h, job.serverFiles), Statuses(job.h, job.clientFiles), p);
    hide VersionsAt, PlansFor;
  }

  lemma {:induction false} DistinctCount(ps: seq<Path>, s: set<Path>)
    requires forall k :: 0 <= k < |ps| ==> ps[k] in s
    requires forall k, l :: 0 <= k < l < |ps| ==> ps[k] != ps[l]
    ensures |ps| <= |s|
    decreases |ps|
  {
    if ps != [] {
      var n := |ps| - 1;
      DistinctCount(ps[..n], s - {ps[n]});
    }
  }

  lemma {:induction false} SkipsAtMost(plan: seq<FileAction>, n: nat)
    requires n <= |plan|
    ensures SkipCount(plan, n) <= n
  {
    if n > 0 { SkipsAtMost(plan, n - 1); }
  }

  /** Before an action the plan has only paths that come earlier. */
  lemma EarlierActions(x: System, job: Job, i: nat)
    requires JobOf(x, job) && PlansFor(job.h, job.plan, job.serverFiles, job.clientFiles) && i < |job.plan|
    ensures SkipCount(job.plan, i) <= |Earlier(x, job.plan[i].path)|
  {
    var ps := Paths(job.plan)[..i];
    PathLessStrictTotal();
    forall k | 0 <= k < |ps| ensures ps[k] in Earlier(x, job.plan[i].path) {
      PlannedSource(job.h, job.plan, job.serverFiles, job.clientFiles, k);
      JobHolds(x, job, ps[k]);
      assert PathLess(Paths(job.plan)[k], Paths(job.plan)[i]);
    }
    forall k, l | 0 <= k < l < |ps| ensures ps[k] != ps[l] {
      assert PathLess(Paths(job.plan)[k], Paths(job.plan)[l]);
    }
    DistinctCount(ps, Earlier(x, job.plan[i].path));
    SkipsAtMost(job.plan, i);
  }

  lemma JobIsFit(h: Hashes, x: System, job: Job)
    requires FitVersions(h, x, job.clientBlockSize, job.serverBlockSize) && job.h == h
    requires JobOf(x, job) && PlansFor(h, job.plan, job.serverFiles, job.clientFiles)
    ensures Fit(job)
  {
    hide VersionsAt, Held, PlansFor, NoCollision, Chunks, TempPath, Earlier, SkipCount;
    assert [] !in job.serverFiles && [] !in job.clientFiles by {
      if [] in job.serverFiles || [] in job.clientFiles { JobHolds(x, job, []); }
    }
    JobDoesNotCollide(h, x, job);
    forall i | 0 <= i < |job.plan| && !job.plan[i].direction.Skip?
      ensures !TempHeld(job, i) && SkipCount(job.plan, i) < 10
    {
      TransferIsDisputed(x, job, i);
      EarlierActions(x, job, i);
      if TempHeld(job, i) { JobHolds(x, job, TempPath(job.plan[i].path)); }
    }
  }

  lemma JobDoesNotCollide(h: Hashes, x: System, job: Job)
    requires FitVersions(h, x, job.clientBlockSize, job.serverBlockSize) && job.h == h
    requires JobOf(x, job) && PlansFor(h, job.plan, job.serverFiles, job.clientFiles)
    ensures job.CollisionFree() && NoDigestCollision(h, job.serverFiles, job.clientFiles)
  {
    hide VersionsAt, Held, PlansFor, NoCollision, Chunks, TempPath, Earlier;
    forall p | p in job.serverFiles && p in job.clientFiles
      ensures h.strong(job.serverFiles[p].content) == h.strong(job.clientFiles[p].content) ==>
        job.serverFiles[p].content == job.clientFiles[p].content
    {
      assert FileAt(job.serverFiles, p) in VersionsAt(x, p) && FileAt(job.clientFiles, p) in VersionsAt(x, p);
      assert Sendable(h, job.serverFiles[p], FileAt(job.clientFiles, p), job.clientBlockSize);
    }
    forall i | 0 <= i < |job.plan| ensures SessionTheorems.CollisionFree(job.SessionAt(i)) {
      var p := job.plan[i].path;
      PlannedSource(h, job.plan, job.serverFiles, job.clientFiles, i);
      assert FileAt(job.serverFiles, p) in VersionsAt(x, p) && FileAt(job.clientFiles, p) in VersionsAt(x, p);
      assert p in job.clientFiles ==> Sendable(h, job.clientFiles[p], FileAt(job.serverFiles, p), job.serverBlockSize);
      assert p in job.serverFiles ==> Sendable(h, job.serverFiles[p], FileAt(job.clientFiles, p), job.clientBlockSize);
    }
  }

  /** A caller can see from the first versions that every sync will be fit. */
  lemma FitVersionsSuffice(h: Hashes, x: System, clientBlockSize: nat, serverBlockSize: nat)
    requires FitVersions(h, x, clientBlockSize, serverBlockSize)
    ensures ReachablyFit(h, x, clientBlockSize, serverBlockSize)
  {
    hide FitVersions, SyncStep, PlansFor, Fit, VersionsAt;
    forall run: seq<System>, who, k: nat, i: nat, plan |
      IsSyncRun(h, run, who) && run[0] == x && k < |run| && i < |run[k].clients|
      && PlansFor(h, plan, run[k].server, run[k].clients[i])
      ensures Fit(Job(h, plan, clientBlockSize, serverBlockSize, run[k].clients[i], run[k].server))
    {
      var job := Job(h, plan, clientBlockSize, serverBlockSize, run[k].clients[i], run[k].server);
      forall p ensures FileAt(job.serverFiles, p) in VersionsAt(x, p) && FileAt(job.clientFiles, p) in VersionsAt(x, p) {
        HeldFromStart(h, run, who, k, i, p);
      }
      JobIsFit(h, x, job);
    }
  }

  /** Syncs only hand versions on. */
  lemma HeldFromStart(h: Hashes, run: seq<System>, who: seq<nat>, k: nat, i: nat, p: Path)
    requires IsSyncRun(h, run, who) && k < |run| && i < |run[k].clients|
    ensures FileAt(run[k].server, p) in VersionsAt(run[0], p)
    ensures FileAt(run[k].clients[i], p) in VersionsAt(run[0], p)
  {
    SyncsAreExchanges(h, run, who, p);
    NothingNew(h, RunAt(run, p), who, k);
    var a := RunAt(run, p)[k];
    assert a[|run[k].clients|] == FileAt(run[k].server, p) && a[i] == FileAt(run[k].clients[i], p);
  }

  /** The bytes are a stretch of some file of the system. */
  ghost predicate IsPiece(x: System, d: Bytes) {
    exists p, f, i, j :: Some(f) in VersionsAt(x, p) && 0 <= i <= j <= |f.content| && d == f.content[i..j]
  }

  lemma {:induction false} ChunksArePieces(data: Bytes, blockSize: nat, k: nat) returns (i: nat, j: nat)
    requires blockSize > 0
    ensures |Chunks(data, blockSize)| <= |data|
    ensures k < |Chunks(data, blockSize)| ==> i <= j <= |data| && Chunks(data, blockSize)[k] == data[i..j]
    decreases |data|
  {
    i, j := 0, |data|;
    if |data| > blockSize {
      var i', j' := ChunksArePieces(data[blockSize..], blockSize, if k == 0 then 0 else k - 1);
      if k == 0 { j := blockSize; } else { i, j := blockSize + i', blockSize + j'; }
    }
  }

  lemma PiecesAreSendable(h: Hashes, x: System, p: Path, a: File, b: Option<File>, blockSize: nat)
    requires blockSize > 0 && Some(a) in VersionsAt(x, p) && b in VersionsAt(x, p) && |ContentOr(b)| <= TWO_TO_THE_32
    requires forall d, e :: IsPiece(x, d) && IsPiece(x, e) && h.strong(d) == h.strong(e) ==> d == e
    ensures Sendable(h, a, b, blockSize)
  {
    hide VersionsAt, Chunks, BuzHash.Weak, IsPiece;
    var blocks := Chunks(ContentOr(b), blockSize);
    var _, _ := ChunksArePieces(ContentOr(b), blockSize, 0);
    forall k: nat, i: nat | k < |blocks| && i + blockSize <= |a.content|
      ensures IsPiece(x, blocks[k]) && IsPiece(x, Window(a.content, i, blockSize))
    {
      var l, m := ChunksArePieces(ContentOr(b), blockSize, k);
      PieceOf(x, p, a, i, i + blockSize);
      if b.Some? { PieceOf(x, p, b.value, l, m); }
    }
    PieceOf(x, p, a, 0, |a.content|);
    if b.Some? { PieceOf(x, p, b.value, 0, |b.value.content|); }
  }

  lemma PieceOf(x: System, p: Path, f: File, i: nat, j: nat)
    requires Some(f) in VersionsAt(x, p) && i <= j <= |f.content|
    ensures IsPiece(x, f.content[i..j])
    ensures IsPiece(x, f.content)
  {
    hide VersionsAt;
    assert f.content[0..|f.content|] == f.content;
  }

  /** At most ten paths, none the temporary file of another, and a digest that tells all
      pieces of the files apart, are enough. */
  lemma SmallSystemsAreFit(h: Hashes, x: System, clientBlockSize: nat, serverBlockSize: nat)
    requires clientBlockSize > 0 && serverBlockSize > 0
    requires |Held(x)| <= 10 && [] !in Held(x)
    requires forall p :: p in Held(x) ==> TempPath(p) !in Held(x)
    requires forall p, f :: Some(f) in VersionsAt(x, p) ==> |f.content| <= TWO_TO_THE_32
    requires forall d, e :: IsPiece(x, d) && IsPiece(x, e) && h.strong(d) == h.strong(e) ==> d == e
    ensures FitVersions(h, x, clientBlockSize, serverBlockSize)
    ensures ReachablyFit(h, x, clientBlockSize, serverBlockSize)
  {
    hide VersionsAt, Held, IsPiece, Sendable, ReachablyFit;
    forall p, a, b | a in VersionsAt(x, p) && b in VersionsAt(x, p) && a.Some?
      ensures Sendable(h, a.value, b, clientBlockSize) && Sendable(h, a.value, b, serverBlockSize)
    {
      PiecesAreSendable(h, x, p, a.value, b, clientBlockSize);
      PiecesAreSendable(h, x, p, a.value, b, serverBlockSize);
    }
    forall p | Disputed(x, p) ensures TempPath(p) !in Held(x) && |Earlier(x, p)| < 10 {
      var a, b :| a in VersionsAt(x, p) && b in VersionsAt(x, p) && a != b;
      HeldHas(x, p, if a.Some? then a else b);
      PathLessStrictTotal();
      SubsetSize(Earlier(x, p), Held(x) - {p});
    }
    FitVersionsSuffice(h, x, clientBlockSize, serverBlockSize);
  }

  lemma {:induction false} SubsetSize<T>(a: set<T>, b: set<T>)
    requires a <= b
    ensures |a| <= |b|
  {
    if a != {} {
      var e :| e in a;
      SubsetSize(a - {e}, b - {e});
    }
  }
}
