/** A transfer never gets stuck, always ends, and ends with both sides agreeing. */
module SessionProgress {
  import opened Common
  import opened Messages
  import opened Signatures
  import opened DeltaScan
  import opened ScanProperties
  import opened Writer
  import opened Handler
  import opened Protocol
  import opened SessionInvariant
  import opened SessionTheorems

  // ---------- Enabled steps ----------

  /** The endpoint or its writer can make a step that is not an abort. */
  ghost predicate Active(h: Hashes, blockSize: nat, l: Local)
    requires blockSize > 0
  {
    exists l' :: WorkStep(h, blockSize, l, l') || ReceiveStep(h, blockSize, l, l') || WriterStep(l, l')
  }

  /** The first item of work can be done now. */
  ghost predicate Unblocked(l: Local) {
    && l.side.status == Running && l.side.work != []
    && match l.side.work[0]
       case Emit(_) => l.outbox.HasRoom(MESSAGE_CAPACITY)
       case SendFileSignatures => l.outbox.HasRoom(MESSAGE_CAPACITY)
       case OpenWriterOnFile(_) => l.side.writer.Idle?
       case OpenWriter(_, _, _) => l.side.writer.Idle?
       case Forward(_) => l.side.queue.HasRoom(WRITER_CAPACITY) && !l.side.writer.Died?
       case Finish => true
  }

  lemma WorkActive(h: Hashes, blockSize: nat, l: Local)
    requires blockSize > 0 && Unblocked(l)
    ensures Active(h, blockSize, l)
  {
    var s := l.side.(work := l.side.work[1..]);
    var l' := match l.side.work[0]
      case Emit(m) => l.(side := s, outbox := l.outbox.Push(m))
      case SendFileSignatures =>
        l.(side := s, outbox := l.outbox.Push(Signatures(SignAll(h, blockSize, FileBlocks(l.files, s.filePath, blockSize)))))
      case OpenWriterOnFile(modified) =>
        l.(side := s.(writer := Spawned(s.filePath, FileBlocks(l.files, s.filePath, blockSize), modified)))
      case OpenWriter(path, cache, modified) => l.(side := s.(writer := Spawned(path, cache, modified)))
      case Forward(d) => l.(side := s.(queue := s.queue.Push(d)))
      case Finish => l.(side := s.(status := Status.Completed));
    hide SignAll, FileBlocks;
    assert WorkStep(h, blockSize, l, l');
  }

  lemma ReceiveActive(h: Hashes, blockSize: nat, l: Local)
    requires blockSize > 0
    requires l.side.status == Running && l.side.work == [] && l.inbox.taken < |l.inbox.sent|
    ensures Active(h, blockSize, l)
  {
    var response := Respond(h, blockSize, l.files, l.side.filePath, !l.side.writer.Idle?, l.inbox.sent[l.inbox.taken]);
    var l' := match response
      case Fails => l.(inbox := l.inbox.Pop(), side := l.side.(status := Aborted))
      case Response(path, work) => l.(inbox := l.inbox.Pop(), side := l.side.(filePath := path, work := work));
    hide Respond;
    assert ReceiveStep(h, blockSize, l, l');
  }

  /** The writer has something to do: it never waits for more deltas once the endpoint ended. */
  predicate WriterReady(l: Local) {
    || l.side.writer.Spawned?
    || (l.side.writer.Writing? && TempPath(l.side.writer.path) in l.files
        && (!l.side.queue.Empty() || l.side.status != Running))
  }

  lemma WriterMoves(l: Local) returns (l': Local)
    requires WriterReady(l)
    ensures WriterStep(l, l')
    ensures l'.side.writer.Done? ==> l.side.writer.Writing? && l.side.queue.Empty()
  {
    var w, temp := l.side.writer, TempPath(l.side.writer.path);
    l' :=
      if w.Spawned? then
        l.(files := l.files[temp := File([], EPOCH)], side := l.side.(writer := Writing(w.path, w.cache, w.modified)))
      else if !l.side.queue.Empty() then
        var p := Apply(w.cache, Open(l.files[temp].content), l.side.queue.sent[l.side.queue.taken]);
        l.(files := l.files[temp := File(p.content, EPOCH)],
           side := l.side.(queue := l.side.queue.Pop(), writer := if p.Open? then w else Died))
      else
        l.(files := (l.files - {temp})[w.path := File(l.files[temp].content, w.modified)], side := l.side.(writer := Done));
    hide Apply;
  }

  lemma WriterActive(h: Hashes, blockSize: nat, l: Local)
    requires blockSize > 0 && WriterReady(l)
    ensures Active(h, blockSize, l)
  {
    hide WriterStep, WriterReady;
    var l' := WriterMoves(l);
  }

  // ---------- No state is stuck ----------

  /** How much each side has sent, by how much it has taken. */
  lemma OutputLengths(t: Transfer, k: nat)
    requires t.blockSize > 0
    ensures var asked, n := |t.ReceiverOpening()| + 1, |t.Answer()|;
      |t.SenderOutput(k)| == |t.SenderOpening()| + (if k >= asked then n + 1 else 0) + (if k > asked then 1 else 0)
    ensures var first, n := |t.SenderOpening()|, |t.Answer()|;
      |t.ReceiverOutput(k)| == (if k >= first then |t.ReceiverOpening()| + 1 else 0) + (if k > first + n then 1 else 0)
    ensures |t.SenderOpening()| + |t.ReceiverOpening()| == 1
    ensures |OpeningWork(t)| == |t.ReceiverOpening()| + 2
  {
    hide Deltas, SignAll;
  }

  /** The two sides of a transfer, joined by their channels, neither of them aborted. */
  ghost predicate Joined(t: Transfer, ls: Local, lr: Local)
    requires t.Valid()
  {
    && SenderInv(t, ls) && ReceiverInv(t, lr)
    && ls.inbox == lr.outbox && ls.outbox == lr.inbox
    && ls.inbox.Valid() && ls.outbox.Valid()
    && ls.side.status != Aborted && lr.side.status != Aborted
  }

  ghost predicate BothDone(ls: Local, lr: Local) {
    && ls.side.status == Status.Completed && lr.side.status == Status.Completed && lr.side.writer.Done?
  }

  /** While the receiver runs it can move, or it waits for the sender with its channels drained. */
  lemma ReceiverMovesOrWaits(t: Transfer, lr: Local)
    requires t.Valid() && ReceiverInv(t, lr) && lr.side.status == Running && lr.outbox.Valid()
    ensures Active(t.h, t.blockSize, lr) || (
      && lr.side.work == [] && lr.inbox.taken >= |lr.inbox.sent|
      && (lr.inbox.taken < |t.SenderOpening()|
          || (!lr.side.writer.Idle? && lr.inbox.taken <= |t.SenderOpening()| + |t.Answer()|
              && lr.outbox.sent == t.ReceiverOutput(lr.inbox.taken))))
  {
    OutputLengths(t, lr.inbox.taken);
    hide Transfer.SenderOutput, Transfer.ReceiverOutput, Transfer.Answer, Transfer.Cache, OpeningWork,
         Rebuild, Active;
    var w := lr.side.writer;
    if w.Spawned? || (w.Writing? && !lr.side.queue.Empty()) {
      WriterActive(t.h, t.blockSize, lr);
    } else if lr.side.work != [] {
      if w.Idle? {
        OpeningIsUnblocked(t, lr);
      } else {
        HeadIsUnblocked(t, lr);
      }
      WorkActive(t.h, t.blockSize, lr);
    } else if lr.inbox.taken < |lr.inbox.sent| {
      ReceiveActive(t.h, t.blockSize, lr);
    }
  }

  lemma OpeningIsUnblocked(t: Transfer, lr: Local)
    requires t.Valid() && ReceiverInv(t, lr) && lr.side.status == Running && lr.side.work != [] && lr.outbox.Valid()
    requires lr.side.writer.Idle?
    ensures Unblocked(lr)
  {
    hide Deltas, SignAll, Chunks, TargetInv, Transfer.ReceiverOutput, Transfer.Answer, Emits;
    assert lr.side.work[0] == OpeningWork(t)[|lr.outbox.sent|];
  }

  /** The receiver sends at most three messages. */
  lemma ReceiverHasRoom(t: Transfer, lr: Local)
    requires t.Valid() && ReceiverInv(t, lr) && lr.outbox.Valid()
    ensures lr.outbox.HasRoom(MESSAGE_CAPACITY)
  {
    OutputLengths(t, lr.inbox.taken);
    hide Transfer.ReceiverOutput, Transfer.Answer, Transfer.Cache, OpeningWork, TargetInv, Emits;
  }

  lemma HeadAfterOpening(t: Transfer, lr: Local)
    requires t.Valid() && ReceiverInv(t, lr) && lr.side.status == Running && lr.side.work != []
    requires !lr.side.writer.Idle?
    ensures !lr.side.writer.Died?
    ensures lr.side.work[0].Forward? || lr.side.work[0].Emit? || lr.side.work[0].Finish?
  {
    var ms := t.ReceiverOutput(lr.inbox.taken)[|lr.outbox.sent|..];
    assert forall i :: 0 <= i < |Emits(ms)| ==> Emits(ms)[i].Emit?;
    hide Transfer.Answer, Transfer.Cache, Transfer.ReceiverOutput, OpeningWork, Rebuild, Emits;
  }

  /** Once its writer is open, the receiver forwards only to a drained writer or waits for
      it; its own messages always find room. */
  lemma HeadIsUnblocked(t: Transfer, lr: Local)
    requires t.Valid() && ReceiverInv(t, lr) && lr.side.status == Running && lr.side.work != [] && lr.outbox.Valid()
    requires !lr.side.writer.Idle? && lr.side.queue.Empty()
    ensures Unblocked(lr)
  {
    HeadAfterOpening(t, lr);
    ReceiverHasRoom(t, lr);
    hide ReceiverInv;
  }

  lemma SenderMovesOrWaits(t: Transfer, blockSize: nat, ls: Local)
    requires t.Valid() && blockSize > 0 && SenderInv(t, ls) && ls.side.status == Running
    requires |ls.outbox.sent| <= ls.outbox.taken + 1
    ensures Active(t.h, blockSize, ls) || (
      && ls.inbox.taken >= |ls.inbox.sent| && ls.inbox.taken < |t.ReceiverOpening()| + 2
      && ls.outbox.sent == t.SenderOutput(ls.inbox.taken))
  {
    var k, sent := ls.inbox.taken, |ls.outbox.sent|;
    EmitsStep(t.SenderOutput(k), sent);
    hide Transfer.SenderOutput, Transfer.ReceiverOutput, Transfer.Answer, Emits, Active;
    if ls.side.work != [] {
      WorkActive(t.h, blockSize, ls);
    } else if k < |ls.inbox.sent| {
      ReceiveActive(t.h, blockSize, ls);
    }
  }

  /** How far each side can have taken, sent and answered. */
  lemma StreamLengths(t: Transfer, ls: Local, lr: Local)
    requires t.Valid() && Joined(t, ls, lr)
    ensures var first, asked, n := |t.SenderOpening()|, |t.ReceiverOpening()| + 1, |t.Answer()|;
      && first + asked == 2
      && |t.SenderOutput(ls.inbox.taken)|
         == first + (if ls.inbox.taken >= asked then n + 1 else 0) + (if ls.inbox.taken > asked then 1 else 0)
      && |t.ReceiverOutput(lr.inbox.taken)|
         == (if lr.inbox.taken >= first then asked else 0) + (if lr.inbox.taken > first + n then 1 else 0)
      && |t.SenderStream()| == first + n + 2 && |t.ReceiverStream()| == asked + 1
  {
    OutputLengths(t, ls.inbox.taken);
    OutputLengths(t, lr.inbox.taken);
    OutputLengths(t, |t.ReceiverOpening()| + 2);
    OutputLengths(t, |t.SenderOpening()| + |t.Answer()| + 1);
    hide Joined, Transfer.SenderOutput, Transfer.ReceiverOutput, Transfer.Answer, OpeningWork;
  }

  /** While the receiver runs, one of the two can move. */
  lemma RunningProgress(t: Transfer, blockSize: nat, ls: Local, lr: Local)
    requires t.Valid() && blockSize > 0 && Joined(t, ls, lr) && lr.side.status == Running
    ensures Active(t.h, blockSize, ls) || Active(t.h, t.blockSize, lr)
  {
    StreamLengths(t, ls, lr);
    hide Transfer.SenderOutput, Transfer.ReceiverOutput, Transfer.SenderStream, Transfer.ReceiverStream,
         Transfer.Answer, Transfer.Cache, OpeningWork, TargetInv, Active, Emits;
    ReceiverMovesOrWaits(t, lr);
    if !Active(t.h, t.blockSize, lr) && ls.side.status == Running {
      SenderMovesOrWaits(t, blockSize, ls);
    }
  }

  /** Once the receiver has completed, the sender can go on to the end. */
  lemma SenderFinishes(t: Transfer, blockSize: nat, ls: Local, lr: Local)
    requires t.Valid() && blockSize > 0 && Joined(t, ls, lr) && lr.side.status == Status.Completed
    requires ls.side.status == Running
    ensures Active(t.h, blockSize, ls)
  {
    StreamLengths(t, ls, lr);
    hide Transfer.SenderOutput, Transfer.ReceiverOutput, Transfer.SenderStream, Transfer.ReceiverStream,
         Transfer.Answer, Transfer.Cache, OpeningWork, Active, Emits, TargetInv;
    SenderMovesOrWaits(t, blockSize, ls);
  }

  /** Once the receiver has completed, its writer can move or the sender can, or both are done. */
  lemma CompletedProgress(t: Transfer, blockSize: nat, ls: Local, lr: Local)
    requires t.Valid() && blockSize > 0 && Joined(t, ls, lr) && lr.side.status == Status.Completed
    ensures Active(t.h, blockSize, ls) || Active(t.h, t.blockSize, lr) || BothDone(ls, lr)
  {
    if ls.side.status == Running {
      hide *;
      SenderFinishes(t, blockSize, ls, lr);
    } else if !lr.side.writer.Done? {
      CompletedIsReady(t, lr);
      WriterActive(t.h, t.blockSize, lr);
      hide *;
    }
  }

  lemma CompletedIsReady(t: Transfer, lr: Local)
    requires t.Valid() && ReceiverInv(t, lr) && lr.side.status == Status.Completed && !lr.side.writer.Done?
    ensures WriterReady(lr)
  {
    hide Transfer.ReceiverOutput, Transfer.Answer, Transfer.Cache, OpeningWork, Rebuild, TempPath, Emits;
  }

  lemma JoinedProgress(t: Transfer, blockSize: nat, ls: Local, lr: Local)
    requires t.Valid() && blockSize > 0 && Joined(t, ls, lr)
    ensures Active(t.h, blockSize, ls) || Active(t.h, t.blockSize, lr) || BothDone(ls, lr)
  {
    hide SenderInv, ReceiverInv, Active;
    if lr.side.status == Running {
      RunningProgress(t, blockSize, ls, lr);
    } else {
      CompletedProgress(t, blockSize, ls, lr);
    }
  }

  // ---------- Sessions ----------

  ghost predicate NoneAborted(s: State) {
    s.client.status != Aborted && s.server.status != Aborted
  }

  /** Both sides have completed and the receiver's writer has renamed its file. */
  ghost predicate Over(c: Session, s: State) {
    && Sender(c, s).status == Status.Completed && Receiver(c, s).status == Status.Completed
    && Receiver(c, s).writer.Done?
  }

  /** Only taking a message or an abort can end a side badly. */
  lemma WorkNeverAborts(h: Hashes, blockSize: nat, l: Local, l': Local)
    requires blockSize > 0 && l.side.status != Aborted && (WorkStep(h, blockSize, l, l') || WriterStep(l, l'))
    ensures LocalStep(h, blockSize, l, l') && l'.side.status != Aborted
  {
    hide SignAll, FileBlocks, Apply, ReceiveStep, AbortStep;
  }

  lemma ReceivingIsLocal(h: Hashes, blockSize: nat, l: Local, l': Local)
    requires blockSize > 0 && ReceiveStep(h, blockSize, l, l')
    ensures LocalStep(h, blockSize, l, l')
  {
    hide ReceiveStep, WorkStep, WriterStep, AbortStep;
  }

  /** An active side can be extended to a step of the session that aborts nothing. */
  lemma ActiveSender(t: Transfer, blockSize: nat, l: Local) returns (l': Local)
    requires t.Valid() && blockSize > 0 && SenderInv(t, l) && l.inbox.sent <= t.ReceiverStream()
    requires l.side.status != Aborted && Active(t.h, blockSize, l)
    ensures LocalStep(t.h, blockSize, l, l') && l'.side.status != Aborted
  {
    hide SenderInv, WorkStep, ReceiveStep, WriterStep, LocalStep, Transfer.Valid, Transfer.ReceiverStream;
    l' :| WorkStep(t.h, blockSize, l, l') || ReceiveStep(t.h, blockSize, l, l') || WriterStep(l, l');
    if ReceiveStep(t.h, blockSize, l, l') {
      SenderReceives(t, blockSize, l, l');
      ReceivingIsLocal(t.h, blockSize, l, l');
    } else {
      WorkNeverAborts(t.h, blockSize, l, l');
    }
  }

  lemma ActiveReceiver(t: Transfer, l: Local) returns (l': Local)
    requires t.Valid() && ReceiverInv(t, l) && l.inbox.sent <= t.SenderStream()
    requires l.side.status != Aborted && Active(t.h, t.blockSize, l)
    ensures LocalStep(t.h, t.blockSize, l, l') && l'.side.status != Aborted
  {
    hide ReceiverInv, WorkStep, ReceiveStep, WriterStep, LocalStep, Transfer.SenderStream;
    l' :| WorkStep(t.h, t.blockSize, l, l') || ReceiveStep(t.h, t.blockSize, l, l') || WriterStep(l, l');
    if ReceiveStep(t.h, t.blockSize, l, l') {
      ReceiverReceives(t, l, l');
      ReceivingIsLocal(t.h, t.blockSize, l, l');
    } else {
      WorkNeverAborts(t.h, t.blockSize, l, l');
    }
  }

  function SenderLocal(c: Session, x: Config): Local {
    if c.action.direction.Upload? then ClientLocal(x.clientFiles, x.state) else ServerLocal(x.serverFiles, x.state)
  }

  function ReceiverLocal(c: Session, x: Config): Local {
    if c.action.direction.Upload? then ServerLocal(x.serverFiles, x.state) else ClientLocal(x.clientFiles, x.state)
  }

  lemma SidesJoin(c: Session, x: Config)
    requires ValidSession(c) && !c.action.direction.Skip? && NoneAborted(x.state)
    requires SessionInv(c, x.clientFiles, x.serverFiles, x.state)
    ensures var t, ls, lr := TransferOf(c), SenderLocal(c, x), ReceiverLocal(c, x);
      Joined(t, ls, lr) && ls.inbox.sent <= t.ReceiverStream() && lr.inbox.sent <= t.SenderStream()
  {
    OutputsArePrefixes(TransferOf(c), SenderLocal(c, x).inbox.taken);
    OutputsArePrefixes(TransferOf(c), ReceiverLocal(c, x).inbox.taken);
  }

  /** From every configuration that keeps the invariant, unless a side has aborted or all is
      over, some side can make a step that aborts nothing. */
  lemma ProgressFrom(c: Session, x: Config)
    requires ValidSession(c) && !c.action.direction.Skip?
    requires SessionInv(c, x.clientFiles, x.serverFiles, x.state)
    requires NoneAborted(x.state) && !Over(c, x.state)
    ensures exists y :: Next(c, x, y) && NoneAborted(y.state)
  {
    var t, ls, lr := TransferOf(c), SenderLocal(c, x), ReceiverLocal(c, x);
    var upload := c.action.direction.Upload?;
    var blockSize := if upload then c.clientBlockSize else c.serverBlockSize;
    SidesJoin(c, x);
    hide SessionInv, SenderInv, ReceiverInv, LocalStep, Active, Next, Transfer.SenderStream, Transfer.ReceiverStream,
         Transfer.SenderOutput, Transfer.ReceiverOutput;
    JoinedProgress(t, blockSize, ls, lr);
    if Active(t.h, blockSize, ls) {
      var l' := ActiveSender(t, blockSize, ls);
      PlacedIsNext(c, x, upload, l');
    } else {
      var l' := ActiveReceiver(t, lr);
      PlacedIsNext(c, x, !upload, l');
    }
  }

  /** No transfer is ever stuck, whatever has happened so far. */
  lemma Progress(c: Session, run: seq<Config>, i: nat)
    requires ValidSession(c) && IsRun(c, run) && !c.action.direction.Skip? && i < |run|
    requires NoneAborted(run[i].state) && !Over(c, run[i].state)
    ensures exists y :: Next(c, run[i], y) && NoneAborted(y.state)
  {
    RunInv(c, run, i);
    hide SessionInv;
    ProgressFrom(c, run[i]);
  }

  /** The configuration in which the step of one side ends. */
  function Placed(x: Config, client: bool, l': Local): Config {
    if client then Config(l'.files, x.serverFiles, State(l'.side, x.state.server, l'.outbox, l'.inbox))
    else Config(x.clientFiles, l'.files, State(x.state.client, l'.side, l'.inbox, l'.outbox))
  }

  lemma PlacedIsNext(c: Session, x: Config, client: bool, l': Local)
    requires c.clientBlockSize > 0 && c.serverBlockSize > 0
    requires client ==> LocalStep(c.h, c.clientBlockSize, ClientLocal(x.clientFiles, x.state), l')
    requires !client ==> LocalStep(c.h, c.serverBlockSize, ServerLocal(x.serverFiles, x.state), l')
    ensures Next(c, x, Placed(x, client, l'))
  {
    hide LocalStep;
  }

  // ---------- The echo of Complete ----------

  const ECHO: seq<Work> := [Emit(Complete), Finish]

  /** The sender echoes after the receiver's `Complete`, which the receiver sent only after it
      had taken everything the sender sent before the echo. */
  lemma SenderEchoHasRoom(t: Transfer, ls: Local, lr: Local)
    requires t.Valid() && SenderInv(t, ls) && ReceiverInv(t, lr)
    requires ls.inbox == lr.outbox && ls.outbox == lr.inbox && ls.inbox.Valid() && ls.outbox.Valid()
    requires ls.side.status == Running && ls.side.work == ECHO
    ensures ls.outbox.taken == |ls.outbox.sent|
  {
    var k := ls.inbox.taken;
    OutputLengths(t, k);
    OutputLengths(t, lr.inbox.taken);
    EmitsLength(t.SenderOutput(k)[|ls.outbox.sent|..], if k == |t.ReceiverOpening()| + 2 then [Finish] else []);
    hide Transfer.SenderOutput, Transfer.ReceiverOutput, Transfer.Answer, Transfer.Cache, OpeningWork, TargetInv, Emits;
  }

  lemma EmitsLength(ms: seq<Payload>, end: seq<Work>)
    ensures |Emits(ms) + end| == |ms| + |end|
    ensures end == [] ==> Finish !in Emits(ms) + end
  {
  }

  /** In every state of every run, aborts included, a side about to echo `Complete` finds room
      in its channel, though the other side may never read it: the handler's last send, on
      either side, never blocks. */
  lemma EchoNeverBlocks(c: Session, run: seq<Config>, i: nat)
    requires ValidSession(c) && IsRun(c, run) && !c.action.direction.Skip? && i < |run|
    ensures var s := run[i].state;
      && (s.client.status == Running && s.client.work == ECHO ==> s.up.HasRoom(MESSAGE_CAPACITY))
      && (s.server.status == Running && s.server.work == ECHO ==> s.down.HasRoom(MESSAGE_CAPACITY))
  {
    RunInv(c, run, i);
    var t, s := TransferOf(c), run[i].state;
    var upload := c.action.direction.Upload?;
    var lc, lv := ClientLocal(run[i].clientFiles, s), ServerLocal(run[i].serverFiles, s);
    var ls, lr := if upload then lc else lv, if upload then lv else lc;
    assert SenderInv(t, ls) && ReceiverInv(t, lr);
    hide SenderInv, ReceiverInv, SessionInv, IsRun;
    ReceiverHasRoom(t, lr);
    if ls.side.status == Running && ls.side.work == ECHO {
      SenderEchoHasRoom(t, ls, lr);
    }
  }

  // ---------- Termination ----------

  function SideClock(s: Side): nat {
    |s.queue.sent| + s.queue.taken + (if s.status.Running? then 0 else 1)
    + match s.writer
      case Idle => 0
      case Spawned(_, _, _) => 1
      case Writing(_, _, _) => 2
      case _ => 3
  }

  function LocalClock(l: Local): nat { SideClock(l.side) + l.inbox.taken + |l.outbox.sent| }

  /** Everything ever sent, taken, forwarded or begun. */
  function Clock(s: State): nat {
    SideClock(s.client) + SideClock(s.server) + |s.up.sent| + s.up.taken + |s.down.sent| + s.down.taken
  }

  lemma StepTicks(h: Hashes, blockSize: nat, l: Local, l': Local)
    requires blockSize > 0 && LocalStep(h, blockSize, l, l') && l.inbox.Valid() && l.outbox.Valid()
    ensures LocalClock(l') > LocalClock(l)
  {
    hide SignAll, FileBlocks, Respond, Apply;
  }

  function ClockBound(c: Session): nat
    requires ValidSession(c)
  {
    if c.action.direction.Skip? then 4 else 4 * |TransferOf(c).Answer()| + 15
  }

  lemma ReceiverClock(t: Transfer, l: Local)
    requires t.Valid() && ReceiverInv(t, l)
    ensures SideClock(l.side) <= 2 * |t.Answer()| + 4
    ensures l.outbox.sent <= t.ReceiverOutput(l.inbox.taken)
  {
    assert TargetInv(t, l);
    hide ReceiverInv, Transfer.Answer, Transfer.Cache, Rebuild, TempPath;
  }

  lemma SenderClock(t: Transfer, l: Local)
    requires t.Valid() && SenderInv(t, l)
    ensures SideClock(l.side) <= 1
    ensures l.outbox.sent <= t.SenderOutput(l.inbox.taken)
  {
  }

  lemma ClockIsBounded(c: Session, cf: Files, sf: Files, s: State)
    requires ValidSession(c) && SessionInv(c, cf, sf, s)
    ensures Clock(s) <= ClockBound(c)
  {
    if !c.action.direction.Skip? {
      var t, upload := TransferOf(c), c.action.direction.Upload?;
      var ls, lr := if upload then ClientLocal(cf, s) else ServerLocal(sf, s),
                    if upload then ServerLocal(sf, s) else ClientLocal(cf, s);
      SenderClock(t, ls);
      ReceiverClock(t, lr);
      OutputsArePrefixes(t, ls.inbox.taken);
      OutputsArePrefixes(t, lr.inbox.taken);
      OutputLengths(t, |t.ReceiverOpening()| + 2);
      OutputLengths(t, |t.SenderOpening()| + |t.Answer()| + 1);
      assert |t.SenderStream()| + |t.ReceiverStream()| == |t.Answer()| + 5;
      hide SenderInv, ReceiverInv, SideClock, Transfer.SenderOutput, Transfer.ReceiverOutput, Transfer.SenderStream,
           Transfer.ReceiverStream, Transfer.Answer, Transfer.Cache, OpeningWork;
    }
  }

  /** Every run is finite: the clock ticks at each step, aborts included, and is bounded by
      the number of deltas, so a run has at most that many steps. */
  lemma RunsAreBounded(c: Session, run: seq<Config>)
    requires ValidSession(c) && IsRun(c, run)
    ensures |run| <= ClockBound(c) + 1
  {
    var n := |run| - 1;
    ClockCountsSteps(c, run, n);
    RunInv(c, run, n);
    ClockIsBounded(c, run[n].clientFiles, run[n].serverFiles, run[n].state);
  }

  lemma {:induction false} ClockCountsSteps(c: Session, run: seq<Config>, i: nat)
    requires ValidSession(c) && IsRun(c, run) && i < |run|
    ensures Clock(run[i].state) >= i
  {
    if i > 0 {
      ClockCountsSteps(c, run, i - 1);
      RunInv(c, run, i - 1);
      var x, y := run[i - 1], run[i];
      assert Next(c, x, y);
      assert x.state.up.Valid() && x.state.down.Valid();
      NextTicks(c, x, y);
    }
  }

  lemma NextTicks(c: Session, x: Config, y: Config)
    requires ValidSession(c) && Next(c, x, y) && x.state.up.Valid() && x.state.down.Valid()
    ensures Clock(y.state) > Clock(x.state)
  {
    hide LocalStep;
    if y.serverFiles == x.serverFiles && ClientStep(c, x.clientFiles, x.state, y.clientFiles, y.state) {
      StepTicks(c.h, c.clientBlockSize, ClientLocal(x.clientFiles, x.state), ClientLocal(y.clientFiles, y.state));
      StepKeepsChannels(c.h, c.clientBlockSize, ClientLocal(x.clientFiles, x.state), ClientLocal(y.clientFiles, y.state));
    } else {
      StepTicks(c.h, c.serverBlockSize, ServerLocal(x.serverFiles, x.state), ServerLocal(y.serverFiles, y.state));
      StepKeepsChannels(c.h, c.serverBlockSize, ServerLocal(x.serverFiles, x.state), ServerLocal(y.serverFiles, y.state));
    }
  }

  // ---------- The end of a run ----------

  /** A run that cannot go on and in which nobody aborted is over: both sides completed, the
      target is the source with the action's timestamp, the temporary file is gone, and one
      echoed `Complete`, the only message ever left unread, waits for the receiver. */
  lemma MaximalRunsComplete(c: Session, run: seq<Config>)
    requires ValidSession(c) && IsRun(c, run) && !c.action.direction.Skip?
    requires var last := run[|run| - 1];
      NoneAborted(last.state) && !exists y :: Next(c, last, y) && NoneAborted(y.state)
    ensures var last := run[|run| - 1];
      var t, toReceiver, toSender := TransferOf(c),
        if c.action.direction.Upload? then last.state.up else last.state.down,
        if c.action.direction.Upload? then last.state.down else last.state.up;
      && Over(c, last.state)
      && (CollisionFree(c) ==> FileAt(ReceiverFiles(c, last), c.action.path) == Some(File(t.source, t.Modified())))
      && TempPath(c.action.path) !in ReceiverFiles(c, last)
      && toSender.taken == |toSender.sent|
      && toReceiver.taken == |toReceiver.sent| - 1 && toReceiver.sent[toReceiver.taken] == Complete
  {
    var n := |run| - 1;
    var t, s := TransferOf(c), run[n].state;
    if !Over(c, s) {
      Progress(c, run, n);
    }
    TargetIsOldOrPrefix(c, run, n);
    RunInv(c, run, n);
    var first, k := |t.SenderOpening()|, |t.ReceiverOpening()| + 2;
    OutputLengths(t, k);
    OutputLengths(t, first + |t.Answer()| + 1);
    assert t.SenderStream() == t.SenderOutput(k);
    assert t.SenderStream()[|t.SenderStream()| - 1] == Complete;
    hide Transfer.SenderOutput, Transfer.ReceiverOutput, Transfer.Answer, Transfer.Cache, Rebuild, TempPath,
         OpeningWork, IsRun, Next, Boundary;
  }

  /** A session that skips its file never completes on either side, in any run: its client
      waits for an answer that nobody sends. Both disks stay as they were. */
  lemma SkipNeverCompletes(c: Session, run: seq<Config>, i: nat)
    requires ValidSession(c) && IsRun(c, run) && c.action.direction.Skip? && i < |run|
    ensures run[i].state.client.status != Status.Completed && run[i].state.server.status != Status.Completed
    ensures run[i].clientFiles == run[0].clientFiles && run[i].serverFiles == run[0].serverFiles
  {
    RunInv(c, run, i);
  }
}
