/** Runs that exist: a complete one of every transfer, and for every number of deltas one in
    which the receiver aborts and leaves exactly these on disk. */
module SessionRuns {
  import opened Common
  import opened Signatures
  import opened Writer
  import opened Handler
  import opened Protocol
  import opened SessionInvariant
  import opened SessionTheorems
  import opened SessionProgress

  lemma ExtendRun(c: Session, run: seq<Config>, y: Config)
    requires ValidSession(c) && IsRun(c, run) && Next(c, run[|run| - 1], y)
    ensures IsRun(c, run + [y])
  {
    assert c.clientBlockSize > 0 && c.serverBlockSize > 0;
    hide Next, ValidSession, InitialState;
    forall i | 0 < i < |run + [y]| ensures Next(c, (run + [y])[i - 1], (run + [y])[i]) {
      assert i < |run| ==> Next(c, run[i - 1], run[i]);
    }
  }

  /** Any run without an abort can be carried on until the transfer is over. */
  lemma {:induction false} CarryOn(c: Session, run: seq<Config>) returns (all: seq<Config>)
    requires ValidSession(c) && IsRun(c, run) && !c.action.direction.Skip?
    requires NoneAborted(run[|run| - 1].state)
    ensures IsRun(c, all) && run <= all && NoneAborted(all[|all| - 1].state) && Over(c, all[|all| - 1].state)
    decreases ClockBound(c) + 1 - |run|
  {
    hide *;
    if Over(c, run[|run| - 1].state) {
      all := run;
    } else {
      SessionProgress.Progress(c, run, |run| - 1);
      var y :| Next(c, run[|run| - 1], y) && NoneAborted(y.state);
      ExtendRun(c, run, y);
      RunsAreBounded(c, run + [y]);
      all := CarryOn(c, run + [y]);
    }
  }

  lemma CompleteRunExists(c: Session, cf: Files, sf: Files) returns (run: seq<Config>)
    requires ValidSession(c) && !c.action.direction.Skip?
    requires FileAt(cf, c.action.path) == c.clientFile && FileAt(sf, c.action.path) == c.serverFile
    ensures IsRun(c, run) && run[0] == Config(cf, sf, InitialState(c.action))
    ensures NoneAborted(run[|run| - 1].state) && Over(c, run[|run| - 1].state)
  {
    hide ValidSession, Next, Over;
    run := CarryOn(c, [Config(cf, sf, InitialState(c.action))]);
  }

  // ---------- All done but the rename ----------

  /** Both sides have completed and the writer has written everything; it has only to rename. */
  ghost predicate Ripe(c: Session, s: State) {
    && Sender(c, s).status == Status.Completed && Receiver(c, s).status == Status.Completed
    && Sender(c, s).writer.Idle?
    && Receiver(c, s).writer.Writing? && Receiver(c, s).writer.path == c.action.path && Receiver(c, s).queue.Empty()
  }

  /** A step of a side that still runs, or whose writer still has deltas, renames nothing. */
  lemma NotYetRenamed(h: Hashes, blockSize: nat, l: Local, l': Local)
    requires blockSize > 0 && LocalStep(h, blockSize, l, l') && !l.side.writer.Done?
    requires l.side.status == Running || !l.side.queue.Empty() || !l.side.writer.Writing?
    ensures !l'.side.writer.Done?
  {
    hide SignAll, FileBlocks, Respond, Apply;
  }

  /** Of two joined sides one can move without a rename, or only the rename is left. */
  lemma JoinedRipens(t: Transfer, blockSize: nat, ls: Local, lr: Local)
    requires t.Valid() && blockSize > 0 && Joined(t, ls, lr) && !lr.side.writer.Done?
    ensures Active(t.h, blockSize, ls)
      || (Active(t.h, t.blockSize, lr)
          && (lr.side.status == Running || !lr.side.queue.Empty() || !lr.side.writer.Writing?))
      || (ls.side.status == Status.Completed && lr.side.status == Status.Completed && ls.side.writer.Idle?
          && lr.side.writer.Writing? && lr.side.writer.path == t.Path() && lr.side.queue.Empty())
  {
    if lr.side.status == Running {
      hide *;
      RunningProgress(t, blockSize, ls, lr);
    } else if ls.side.status == Running {
      SenderFinishes(t, blockSize, ls, lr);
      hide *;
    } else {
      CompletedIsReady(t, lr);
      assert TargetInv(t, lr);
      hide Active, Transfer.SenderOutput, Transfer.ReceiverOutput, Transfer.Answer, Transfer.Cache, OpeningWork, Rebuild,
           TempPath, Emits, ReceiverInv;
      if !lr.side.queue.Empty() || !lr.side.writer.Writing? {
        WriterActive(t.h, t.blockSize, lr);
      }
    }
  }

  lemma RipensFrom(c: Session, x: Config)
    requires ValidSession(c) && !c.action.direction.Skip?
    requires SessionInv(c, x.clientFiles, x.serverFiles, x.state)
    requires NoneAborted(x.state) && !Receiver(c, x.state).writer.Done? && !Ripe(c, x.state)
    ensures exists y :: Next(c, x, y) && NoneAborted(y.state) && !Receiver(c, y.state).writer.Done?
  {
    var t, ls, lr := TransferOf(c), SenderLocal(c, x), ReceiverLocal(c, x);
    var upload := c.action.direction.Upload?;
    var blockSize := if upload then c.clientBlockSize else c.serverBlockSize;
    hide SessionInv, SenderInv, ReceiverInv, LocalStep, Active, Next, Transfer.SenderStream, Transfer.ReceiverStream,
         Transfer.SenderOutput, Transfer.ReceiverOutput;
    SidesJoin(c, x);
    JoinedRipens(t, blockSize, ls, lr);
    if Active(t.h, blockSize, ls) {
      var l' := ActiveSender(t, blockSize, ls);
      PlacedIsNext(c, x, upload, l');
    } else {
      var l' := ActiveReceiver(t, lr);
      NotYetRenamed(t.h, t.blockSize, lr, l');
      PlacedIsNext(c, x, !upload, l');
    }
  }

  /** Any run without an abort or a rename can be carried on until only the rename is left. */
  lemma {:induction false} Ripen(c: Session, run: seq<Config>) returns (all: seq<Config>)
    requires ValidSession(c) && IsRun(c, run) && !c.action.direction.Skip?
    requires NoneAborted(run[|run| - 1].state) && !Receiver(c, run[|run| - 1].state).writer.Done?
    ensures IsRun(c, all) && run <= all && Ripe(c, all[|all| - 1].state)
    decreases ClockBound(c) + 1 - |run|
  {
    hide *;
    if Ripe(c, run[|run| - 1].state) {
      all := run;
    } else {
      RunInv(c, run, |run| - 1);
      RipensFrom(c, run[|run| - 1]);
      var y :| Next(c, run[|run| - 1], y) && NoneAborted(y.state) && !Receiver(c, y.state).writer.Done?;
      ExtendRun(c, run, y);
      RunsAreBounded(c, run + [y]);
      all := Ripen(c, run + [y]);
    }
  }

  /** Every transfer can be brought to its rename; by then no file is gone from either disk,
      and the temporary file is there. */
  lemma RipeRunExists(c: Session, cf: Files, sf: Files) returns (run: seq<Config>)
    requires ValidSession(c) && !c.action.direction.Skip?
    requires FileAt(cf, c.action.path) == c.clientFile && FileAt(sf, c.action.path) == c.serverFile
    ensures IsRun(c, run) && run[0] == Config(cf, sf, InitialState(c.action))
    ensures var x := run[|run| - 1];
      && Ripe(c, x.state) && TempPath(c.action.path) in ReceiverFiles(c, x)
      && Framed(c.action.path, cf, x.clientFiles) && Framed(c.action.path, sf, x.serverFiles)
      && (c.action.direction.Upload? ==> x.clientFiles == cf)
      && (c.action.direction.Download? ==> x.serverFiles == sf)
      && cf.Keys <= x.clientFiles.Keys && sf.Keys <= x.serverFiles.Keys
  {
    hide ValidSession, Next, Ripe, Framed;
    var first := [Config(cf, sf, InitialState(c.action))];
    assert IsRun(c, first);
    hide IsRun;
    run := Ripen(c, first);
    assert run[0] == first[0];
    RunInv(c, run, |run| - 1);
    var x := run[|run| - 1];
    RipeKeepsKeys(c, cf, sf, x);
  }

  lemma RipeKeepsKeys(c: Session, cf: Files, sf: Files, x: Config)
    requires ValidSession(c) && !c.action.direction.Skip? && Ripe(c, x.state)
    requires SessionInv(c, x.clientFiles, x.serverFiles, x.state)
    requires FileAt(cf, c.action.path) == c.clientFile && FileAt(sf, c.action.path) == c.serverFile
    requires Framed(c.action.path, cf, x.clientFiles) && Framed(c.action.path, sf, x.serverFiles)
    requires !c.action.direction.Download? ==> x.clientFiles == cf
    requires !c.action.direction.Upload? ==> x.serverFiles == sf
    ensures TempPath(c.action.path) in ReceiverFiles(c, x)
    ensures cf.Keys <= x.clientFiles.Keys && sf.Keys <= x.serverFiles.Keys
  {
    var p, temp := c.action.path, TempPath(c.action.path);
    InvIsSafe(c, x);
    assert temp in ReceiverFiles(c, x) by {
      assert TargetInv(TransferOf(c), if c.action.direction.Upload? then ServerLocal(x.serverFiles, x.state)
                                      else ClientLocal(x.clientFiles, x.state));
      hide SenderInv, ReceiverInv, Transfer.Answer, Transfer.Cache, Rebuild, TempPath;
    }
    hide SessionInv, ValidSession, TempPath, TargetIsCut, CollisionFree;
    var before, after := if c.action.direction.Upload? then sf else cf, ReceiverFiles(c, x);
    forall q | q in before ensures q in after {
      assert q != p && q != temp ==> FileAt(after, q) == FileAt(before, q);
      assert FileAt(after, p) == FileAt(before, p);
    }
  }

  // ---------- Forwarding goes up in steps of one ----------

  /** The deltas forwarded so far, and one more for the open writer. */
  function Forwarded(s: Side): nat { |s.queue.sent| + if s.writer.Idle? then 0 else 1 }

  lemma LocalForwards(h: Hashes, blockSize: nat, l: Local, l': Local)
    requires blockSize > 0 && LocalStep(h, blockSize, l, l')
    ensures Forwarded(l'.side) <= Forwarded(l.side) + 1
    ensures Forwarded(l'.side) > Forwarded(l.side) ==> l'.side.status.Running?
  {
    hide SignAll, FileBlocks, Respond, Apply;
  }

  lemma NextForwards(c: Session, x: Config, y: Config)
    requires c.clientBlockSize > 0 && c.serverBlockSize > 0 && Next(c, x, y)
    ensures Forwarded(Receiver(c, y.state)) <= Forwarded(Receiver(c, x.state)) + 1
    ensures Forwarded(Receiver(c, y.state)) > Forwarded(Receiver(c, x.state)) ==> Receiver(c, y.state).status.Running?
  {
    hide LocalStep, Forwarded;
    if y.serverFiles == x.serverFiles && ClientStep(c, x.clientFiles, x.state, y.clientFiles, y.state) {
      LocalForwards(c.h, c.clientBlockSize, ClientLocal(x.clientFiles, x.state), ClientLocal(y.clientFiles, y.state));
    } else {
      LocalForwards(c.h, c.serverBlockSize, ServerLocal(x.serverFiles, x.state), ServerLocal(y.serverFiles, y.state));
    }
  }

  lemma StartsAtZero(c: Session, run: seq<Config>)
    requires ValidSession(c) && IsRun(c, run)
    ensures Forwarded(Receiver(c, run[0].state)) == 0
  {
    hide Next;
  }

  lemma RunIsSteps(c: Session, run: seq<Config>, i: nat)
    requires ValidSession(c) && IsRun(c, run) && 0 < i < |run|
    ensures c.clientBlockSize > 0 && c.serverBlockSize > 0 && Next(c, run[i - 1], run[i])
  {
    hide Next;
  }

  /** A run that reaches a count has a state in which the receiver has just reached it. */
  lemma {:induction false} JustReached(c: Session, run: seq<Config>, i: nat, v: nat) returns (j: nat)
    requires ValidSession(c) && IsRun(c, run) && i < |run|
    requires 0 < v <= Forwarded(Receiver(c, run[i].state))
    ensures j <= i && Forwarded(Receiver(c, run[j].state)) == v && Receiver(c, run[j].state).status.Running?
  {
    hide *;
    StartsAtZero(c, run);
    RunIsSteps(c, run, i);
    NextForwards(c, run[i - 1], run[i]);
    if Forwarded(Receiver(c, run[i - 1].state)) >= v {
      j := JustReached(c, run, i - 1, v);
    } else {
      j := i;
    }
  }

  // ---------- The receiver aborts ----------

  /** Once the receiver has stopped, its writer alone runs on to the rename. */
  lemma {:induction false} Drain(c: Session, run: seq<Config>) returns (all: seq<Config>)
    requires ValidSession(c) && IsRun(c, run) && !c.action.direction.Skip?
    requires var r := Receiver(c, run[|run| - 1].state); r.status.Aborted? && !r.writer.Idle?
    ensures IsRun(c, all) && all[0] == run[0]
    ensures var r, r' := Receiver(c, run[|run| - 1].state), Receiver(c, all[|all| - 1].state);
      r'.status.Aborted? && r'.writer.Done? && r'.queue.sent == r.queue.sent
    decreases ClockBound(c) + 1 - |run|
  {
    var x, client := run[|run| - 1], !c.action.direction.Upload?;
    hide *;
    if Receiver(c, x.state).writer.Done? {
      all := run;
    } else {
      RunInv(c, run, |run| - 1);
      StoppedIsReady(c, x);
      var l := ReceiverLocal(c, x);
      var l' := WriterMoves(l);
      WriterOnly(c, x, l, l');
      var y := Placed(x, client, l');
      ExtendRun(c, run, y);
      RunsAreBounded(c, run + [y]);
      all := Drain(c, run + [y]);
    }
  }

  lemma StoppedIsReady(c: Session, x: Config)
    requires ValidSession(c) && !c.action.direction.Skip?
    requires SessionInv(c, x.clientFiles, x.serverFiles, x.state)
    requires var r := Receiver(c, x.state); r.status.Aborted? && !r.writer.Idle? && !r.writer.Done?
    ensures WriterReady(ReceiverLocal(c, x))
  {
    assert TargetInv(TransferOf(c), ReceiverLocal(c, x));
    hide ReceiverInv, SenderInv, Transfer.Answer, Transfer.Cache, Rebuild, TempPath;
  }

  lemma WriterOnly(c: Session, x: Config, l: Local, l': Local)
    requires ValidSession(c) && l == ReceiverLocal(c, x) && WriterStep(l, l')
    ensures var y := Placed(x, !c.action.direction.Upload?, l');
      && Next(c, x, y) && Receiver(c, y.state) == l'.side
      && l.side == Receiver(c, x.state)
      && l'.side.status == l.side.status && !l'.side.writer.Idle? && l'.side.queue.sent == l.side.queue.sent
  {
    assert LocalStep(c.h, if c.action.direction.Upload? then c.serverBlockSize else c.clientBlockSize, l, l');
    PlacedIsNext(c, x, !c.action.direction.Upload?, l');
  }

  /** The running receiver can abort: it forwards nothing more. */
  lemma AbortReceiver(c: Session, x: Config) returns (y: Config)
    requires ValidSession(c) && Receiver(c, x.state).status.Running?
    ensures Next(c, x, y)
    ensures var r, r' := Receiver(c, x.state), Receiver(c, y.state);
      r'.status.Aborted? && r'.queue == r.queue && r'.writer == r.writer
  {
    var l := ReceiverLocal(c, x);
    var l' := l.(side := l.side.(status := Aborted, work := []));
    assert LocalStep(c.h, if c.action.direction.Upload? then c.serverBlockSize else c.clientBlockSize, l, l') by {
      hide WorkStep, ReceiveStep, WriterStep;
      assert AbortStep(l, l');
    }
    PlacedIsNext(c, x, !c.action.direction.Upload?, l');
    y := Placed(x, !c.action.direction.Upload?, l');
  }

  /** A receiver's count says how many deltas it has forwarded, once its writer is open. */
  lemma ForwardedIs(c: Session, run: seq<Config>, i: nat)
    requires ValidSession(c) && IsRun(c, run) && !c.action.direction.Skip? && i < |run|
    ensures var r := Receiver(c, run[i].state); r.writer.Idle? ==> Forwarded(r) == 0
    ensures var r := Receiver(c, run[i].state); Over(c, run[i].state) ==> Forwarded(r) == |TransferOf(c).Answer()| + 1
  {
    RunInv(c, run, i);
    var l := ReceiverLocal(c, run[i]);
    assert ReceiverInv(TransferOf(c), l) && TargetInv(TransferOf(c), l);
    DoneMeansForwarded(TransferOf(c), l);
    hide SessionInv, ReceiverInv, Transfer.Answer, Transfer.Cache, Rebuild, TempPath, IsRun;
  }

  lemma PrefixIsRun(c: Session, run: seq<Config>, j: nat)
    requires ValidSession(c) && IsRun(c, run) && j < |run|
    ensures IsRun(c, run[..j + 1])
  {
    assert c.clientBlockSize > 0 && c.serverBlockSize > 0;
    hide Next, ValidSession, InitialState;
    var before := run[..j + 1];
    forall i | 0 < i < |before| ensures Next(c, before[i - 1], before[i]) {
      assert before[i - 1] == run[i - 1] && before[i] == run[i];
      assert Next(c, run[i - 1], run[i]);
    }
  }

  /** Some run leads to a running receiver that has just forwarded `k` deltas. */
  lemma ForwardingReaches(c: Session, cf: Files, sf: Files, k: nat) returns (run: seq<Config>)
    requires ValidSession(c) && !c.action.direction.Skip? && k <= |TransferOf(c).Answer()|
    requires FileAt(cf, c.action.path) == c.clientFile && FileAt(sf, c.action.path) == c.serverFile
    ensures run != [] && IsRun(c, run) && run[0] == Config(cf, sf, InitialState(c.action))
    ensures var r := Receiver(c, run[|run| - 1].state);
      r.status.Running? && !r.writer.Idle? && |r.queue.sent| == k
  {
    var complete := CompleteRunExists(c, cf, sf);
    var n := |complete| - 1;
    hide ValidSession, Next, IsRun, Over, Transfer.Answer, InitialState, TransferOf, Receiver;
    ForwardedIs(c, complete, n);
    var j := JustReached(c, complete, n, k + 1);
    ForwardedIs(c, complete, j);
    PrefixIsRun(c, complete, j);
    run := complete[..j + 1];
  }

  /** What is on disk once `k` deltas were forwarded and renamed. */
  lemma SafeMeansCut(c: Session, x: Config, k: nat)
    requires ValidSession(c) && !c.action.direction.Skip? && TargetSafe(c, x) && (CollisionFree(c) ==> TargetIsCut(c, x))
    requires Receiver(c, x.state).writer.Done? && |Receiver(c, x.state).queue.sent| == k
    ensures k <= |TransferOf(c).Answer()|
    ensures var t, r, now := TransferOf(c), Receiver(c, x.state), FileAt(ReceiverFiles(c, x), c.action.path);
      && r.queue.sent == t.Answer()[..k]
      && now.Some? && Open(now.value.content) == Rebuild(t.Cache(), t.Answer()[..k])
      && (CollisionFree(c) ==> Cut(c, k) <= |t.source| && now == Some(File(t.source[..Cut(c, k)], t.Modified())))
  {
    hide ValidSession, CollisionFree, Cut, Transfer.Answer, Transfer.Cache, Rebuild, TempPath;
  }

  /** Every cut occurs: for every transfer, up or down, and every number of its deltas there is
      a run in which the receiver aborts after forwarding just these, and its writer renames
      them over the target; without collisions the target is then the source cut there. */
  lemma AbortCanLeaveAnyCut(c: Session, cf: Files, sf: Files, k: nat) returns (run: seq<Config>)
    requires ValidSession(c) && !c.action.direction.Skip? && k <= |TransferOf(c).Answer()|
    requires FileAt(cf, c.action.path) == c.clientFile && FileAt(sf, c.action.path) == c.serverFile
    ensures IsRun(c, run) && run[0].clientFiles == cf && run[0].serverFiles == sf
    ensures var t, last := TransferOf(c), run[|run| - 1];
      var r, now := Receiver(c, last.state), FileAt(ReceiverFiles(c, last), c.action.path);
      && r.status.Aborted? && r.writer.Done? && r.queue.sent == t.Answer()[..k]
      && now.Some? && Open(now.value.content) == Rebuild(t.Cache(), t.Answer()[..k])
      && (CollisionFree(c) ==> Cut(c, k) <= |t.source| && now == Some(File(t.source[..Cut(c, k)], t.Modified())))
  {
    hide *;
    var before := ForwardingReaches(c, cf, sf, k);
    var y := AbortReceiver(c, before[|before| - 1]);
    ExtendRun(c, before, y);
    run := Drain(c, before + [y]);
    TargetIsOldOrPrefix(c, run, |run| - 1);
    SafeMeansCut(c, run[|run| - 1], k);
  }
}
