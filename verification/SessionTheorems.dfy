/** What holds in every state of every run of a session, whatever the interleaving. */
module SessionTheorems {
  import opened Common
  import opened Messages
  import opened Signatures
  import opened DeltaScan
  import opened ScanProperties
  import opened Writer
  import opened Reconstruction
  import opened Handler
  import opened Protocol
  import opened SessionInvariant

  // ---------- Sessions in terms of roles ----------

  /** An upload sends the client's file to the server, a download the server's to the client;
      the receiver's block size is the one that counts. */
  function TransferOf(c: Session): Transfer {
    if c.action.direction.Upload? then
      Transfer(c.h, c.action, c.serverBlockSize, ContentOr(c.clientFile), c.serverFile)
    else
      Transfer(c.h, c.action, c.clientBlockSize, ContentOr(c.serverFile), c.clientFile)
  }

  /** The source file exists and the block sizes are positive. */
  ghost predicate ValidSession(c: Session)
    ensures ValidSession(c) ==> c.clientBlockSize > 0 && c.serverBlockSize > 0
    ensures ValidSession(c) && !c.action.direction.Skip? ==> TransferOf(c).Valid()
  {
    && c.clientBlockSize > 0 && c.serverBlockSize > 0 && c.action.path != []
    && (c.action.direction.Upload? ==> c.clientFile.Some?)
    && (c.action.direction.Download? ==> c.serverFile.Some?)
  }

  /** A session that skips its file: the action travels, and nothing answers it. */
  ghost predicate SkipInv(c: Session, s: State) {
    && s.client.status != Status.Completed && s.server.status != Status.Completed
    && s.client.writer.Idle? && s.server.writer.Idle? && s.client.queue == NO_DELTAS && s.server.queue == NO_DELTAS
    && s.down.sent == [] && s.down.taken == 0 && s.server.work == []
    && (s.client.work == [] || (s.client.work == ClientProgram(c.action) && s.up.sent == []))
    && s.up.taken <= |s.up.sent| && s.up.sent <= [Payload.Action(c.action)]
  }

  /** The invariant of a session on the two disks; one that skips its file reads neither. */
  ghost predicate SessionInv(c: Session, clientFiles: Files, serverFiles: Files, s: State)
    requires ValidSession(c)
  {
    var t := TransferOf(c);
    && s.up.Valid() && s.down.Valid()
    && match c.action.direction
       case Skip => SkipInv(c, s)
       case Upload =>
         && FileAt(clientFiles, c.action.path) == c.clientFile
         && SenderInv(t, ClientLocal(clientFiles, s)) && ReceiverInv(t, ServerLocal(serverFiles, s))
       case Download =>
         && FileAt(serverFiles, c.action.path) == c.serverFile
         && SenderInv(t, ServerLocal(serverFiles, s)) && ReceiverInv(t, ClientLocal(clientFiles, s))
  }

  lemma InitialInv(c: Session, clientFiles: Files, serverFiles: Files)
    requires ValidSession(c)
    requires FileAt(clientFiles, c.action.path) == c.clientFile && FileAt(serverFiles, c.action.path) == c.serverFile
    ensures SessionInv(c, clientFiles, serverFiles, InitialState(c.action))
  {
    var t := TransferOf(c);
    hide Deltas, SignAll, Chunks;
    if c.action.direction.Upload? {
      assert t.SenderOutput(0)[0..] == [Payload.Action(c.action)];
      assert Emits([Payload.Action(c.action)]) == ClientProgram(c.action);
    } else if c.action.direction.Download? {
      assert t.SenderOutput(0)[0..] == [] && Emits([]) == [];
      assert OpeningWork(t)[0..] == ClientProgram(c.action);
    }
  }

  /** What one side sends is always a prefix of its whole stream. */
  lemma OutputsArePrefixes(t: Transfer, k: nat)
    requires t.blockSize > 0
    ensures t.SenderOutput(k) <= t.SenderStream()
    ensures t.ReceiverOutput(k) <= t.ReceiverStream()
  {
    hide Deltas, SignAll;
  }

  ghost predicate SessionStep(c: Session, cf: Files, sf: Files, s: State, cf': Files, sf': Files, s': State)
    requires c.clientBlockSize > 0 && c.serverBlockSize > 0
  {
    || (sf' == sf && ClientStep(c, cf, s, cf', s'))
    || (cf' == cf && ServerStep(c, sf, s, sf', s'))
  }

  lemma StepKeepsChannels(h: Hashes, blockSize: nat, l: Local, l': Local)
    requires blockSize > 0 && LocalStep(h, blockSize, l, l') && l.inbox.Valid() && l.outbox.Valid()
    ensures l'.inbox.Valid() && l'.outbox.Valid()
    ensures l'.inbox.sent == l.inbox.sent && l'.outbox.taken == l.outbox.taken
    ensures l.outbox.sent <= l'.outbox.sent
  {
    hide SignAll, FileBlocks, Respond;
  }

  lemma TransferStepKeeps(c: Session, cf: Files, sf: Files, s: State, cf': Files, sf': Files, s': State)
    requires ValidSession(c) && !c.action.direction.Skip? && SessionInv(c, cf, sf, s)
    requires SessionStep(c, cf, sf, s, cf', sf', s')
    ensures SessionInv(c, cf', sf', s')
    ensures Framed(c.action.path, cf, cf') && Framed(c.action.path, sf, sf')
    ensures c.action.direction.Upload? ==> cf' == cf
    ensures c.action.direction.Download? ==> sf' == sf
  {
    var t := TransferOf(c);
    hide Transfer.SenderOutput, Transfer.ReceiverOutput, LocalStep;
    OutputsArePrefixes(t, s.up.taken);
    OutputsArePrefixes(t, s.down.taken);
    if sf' == sf && ClientStep(c, cf, s, cf', s') {
      var l, l' := ClientLocal(cf, s), ClientLocal(cf', s');
      StepKeepsChannels(c.h, c.clientBlockSize, l, l');
      if c.action.direction.Upload? {
        SenderSteps(t, c.clientBlockSize, l, l');
        PeerOfSender(t, ServerLocal(sf, s), ServerLocal(sf, s'));
      } else {
        ReceiverSteps(t, l, l');
        PeerOfReceiver(t, ServerLocal(sf, s), ServerLocal(sf, s'));
      }
    } else {
      var l, l' := ServerLocal(sf, s), ServerLocal(sf', s');
      StepKeepsChannels(c.h, c.serverBlockSize, l, l');
      if c.action.direction.Upload? {
        ReceiverSteps(t, l, l');
        PeerOfReceiver(t, ClientLocal(cf, s), ClientLocal(cf, s'));
      } else {
        SenderSteps(t, c.serverBlockSize, l, l');
        PeerOfSender(t, ClientLocal(cf, s), ClientLocal(cf, s'));
      }
    }
  }

  /** A step of the other side only lengthens the inbox and drains the outbox. */
  ghost predicate PeerMoved(l: Local, l': Local) {
    && l'.files == l.files && l'.side == l.side
    && l'.inbox.taken == l.inbox.taken && l'.outbox.sent == l.outbox.sent
  }

  lemma PeerOfSender(t: Transfer, l: Local, l': Local)
    requires t.Valid() && ReceiverInv(t, l) && PeerMoved(l, l')
    ensures ReceiverInv(t, l')
  {
  }

  lemma PeerOfReceiver(t: Transfer, l: Local, l': Local)
    requires t.Valid() && SenderInv(t, l) && PeerMoved(l, l')
    ensures SenderInv(t, l')
  {
  }

  lemma SkipStepKeeps(c: Session, cf: Files, sf: Files, s: State, cf': Files, sf': Files, s': State)
    requires ValidSession(c) && c.action.direction.Skip? && SessionInv(c, cf, sf, s)
    requires SessionStep(c, cf, sf, s, cf', sf', s')
    ensures SessionInv(c, cf', sf', s') && cf' == cf && sf' == sf
  {
    hide SignAll, FileBlocks, Chunks;
    if sf' == sf && ClientStep(c, cf, s, cf', s') {
      StepKeepsChannels(c.h, c.clientBlockSize, ClientLocal(cf, s), ClientLocal(cf', s'));
    } else {
      StepKeepsChannels(c.h, c.serverBlockSize, ServerLocal(sf, s), ServerLocal(sf', s'));
    }
  }

  /** Every step of a session keeps its invariant, touches on either disk nothing but its
      own path and temporary file, and never touches the disk of the source. */
  lemma SessionStepKeeps(c: Session, cf: Files, sf: Files, s: State, cf': Files, sf': Files, s': State)
    requires ValidSession(c) && SessionInv(c, cf, sf, s)
    requires SessionStep(c, cf, sf, s, cf', sf', s')
    ensures SessionInv(c, cf', sf', s')
    ensures Framed(c.action.path, cf, cf') && Framed(c.action.path, sf, sf')
    ensures !c.action.direction.Download? ==> cf' == cf
    ensures !c.action.direction.Upload? ==> sf' == sf
  {
    if c.action.direction.Skip? {
      SkipStepKeeps(c, cf, sf, s, cf', sf', s');
    } else {
      hide SessionInv, SessionStep;
      TransferStepKeeps(c, cf, sf, s, cf', sf', s');
    }
  }

  lemma SenderReads(t: Transfer, l: Local, l': Local)
    requires t.Valid() && SenderInv(t, l)
    requires l'.side == l.side && l'.inbox == l.inbox && l'.outbox == l.outbox
    requires FileAt(l'.files, t.Path()) == FileAt(l.files, t.Path())
    ensures SenderInv(t, l')
  {
    hide Transfer.SenderOutput, Transfer.ReceiverOutput, Emits;
  }

  lemma ReceiverReads(t: Transfer, l: Local, l': Local)
    requires t.Valid() && ReceiverInv(t, l)
    requires l'.side == l.side && l'.inbox == l.inbox && l'.outbox == l.outbox
    requires FileAt(l'.files, t.Path()) == FileAt(l.files, t.Path())
    requires FileAt(l'.files, TempPath(t.Path())) == FileAt(l.files, TempPath(t.Path()))
    ensures ReceiverInv(t, l')
  {
    hide Transfer.ReceiverOutput, Transfer.Answer, Transfer.Cache, Rebuild, TempPath, OpeningWork, Emits;
  }

  /** The invariant reads no file but those of a transfer: the source, the target and, on the
      receiver's disk, the temporary file. Changes to other files keep it. */
  lemma OtherFilesKeep(c: Session, cf: Files, sf: Files, s: State, cf': Files, sf': Files)
    requires ValidSession(c) && SessionInv(c, cf, sf, s)
    requires var p, temp := c.action.path, TempPath(c.action.path);
      && (!c.action.direction.Skip? ==> FileAt(cf', p) == FileAt(cf, p) && FileAt(sf', p) == FileAt(sf, p))
      && (c.action.direction.Upload? ==> FileAt(sf', temp) == FileAt(sf, temp))
      && (c.action.direction.Download? ==> FileAt(cf', temp) == FileAt(cf, temp))
    ensures SessionInv(c, cf', sf', s)
  {
    var t := TransferOf(c);
    hide SenderInv, ReceiverInv, TempPath;
    if c.action.direction.Upload? {
      SenderReads(t, ClientLocal(cf, s), ClientLocal(cf', s));
      ReceiverReads(t, ServerLocal(sf, s), ServerLocal(sf', s));
    } else if c.action.direction.Download? {
      SenderReads(t, ServerLocal(sf, s), ServerLocal(sf', s));
      ReceiverReads(t, ClientLocal(cf, s), ClientLocal(cf', s));
    }
  }

  // ---------- Runs ----------

  datatype Config = Config(clientFiles: Files, serverFiles: Files, state: State)

  /** A run of the session: any interleaving of the steps of both sides, aborts included. */
  ghost predicate IsRun(c: Session, run: seq<Config>)
    requires ValidSession(c)
    ensures IsRun(c, run) ==> run != []
  {
    && run != [] && run[0].state == InitialState(c.action)
    && FileAt(run[0].clientFiles, c.action.path) == c.clientFile
    && FileAt(run[0].serverFiles, c.action.path) == c.serverFile
    && forall i :: 0 < i < |run| ==> Next(c, run[i - 1], run[i])
  }

  ghost predicate Next(c: Session, x: Config, y: Config)
    requires c.clientBlockSize > 0 && c.serverBlockSize > 0
  {
    SessionStep(c, x.clientFiles, x.serverFiles, x.state, y.clientFiles, y.serverFiles, y.state)
  }

  lemma {:induction false} RunInv(c: Session, run: seq<Config>, i: nat)
    requires ValidSession(c) && IsRun(c, run) && i < |run|
    ensures SessionInv(c, run[i].clientFiles, run[i].serverFiles, run[i].state)
    ensures Framed(c.action.path, run[0].clientFiles, run[i].clientFiles)
    ensures Framed(c.action.path, run[0].serverFiles, run[i].serverFiles)
    ensures !c.action.direction.Download? ==> run[i].clientFiles == run[0].clientFiles
    ensures !c.action.direction.Upload? ==> run[i].serverFiles == run[0].serverFiles
  {
    assert c.clientBlockSize > 0 && c.serverBlockSize > 0;
    hide SessionInv, SessionStep, ValidSession, InitialState, TempPath;
    if i == 0 {
      InitialInv(c, run[0].clientFiles, run[0].serverFiles);
    } else {
      RunInv(c, run, i - 1);
      assert Next(c, run[i - 1], run[i]);
      SessionStepKeeps(c, run[i - 1].clientFiles, run[i - 1].serverFiles, run[i - 1].state,
                       run[i].clientFiles, run[i].serverFiles, run[i].state);
    }
  }

  function Receiver(c: Session, s: State): Side { if c.action.direction.Upload? then s.server else s.client }

  function Sender(c: Session, s: State): Side { if c.action.direction.Upload? then s.client else s.server }

  function ReceiverFiles(c: Session, x: Config): Files {
    if c.action.direction.Upload? then x.serverFiles else x.clientFiles
  }

  /** How many bytes of the source the first `k` deltas of a session stand for. */
  function Cut(c: Session, k: nat): nat
    requires ValidSession(c) && !c.action.direction.Skip? && k <= |TransferOf(c).Answer()|
  {
    Boundary(TransferOf(c).Cache(), TransferOf(c).Answer(), k)
  }

  /** The hash functions tell the old blocks from the source's windows. */
  ghost predicate CollisionFree(c: Session)
    requires c.clientBlockSize > 0 && c.serverBlockSize > 0
  {
    !c.action.direction.Skip? ==> TransferOf(c).CollisionFree()
  }

  /** Until the rename the target is the old file. The rename happens only after the receiver
      has completed or aborted; it leaves what the deltas forwarded so far rebuild, with the
      action's timestamp, and a receiver that completed has forwarded them all. */
  ghost predicate TargetSafe(c: Session, x: Config)
    requires ValidSession(c) && !c.action.direction.Skip?
  {
    var t, r, now := TransferOf(c), Receiver(c, x.state), FileAt(ReceiverFiles(c, x), c.action.path);
    && !r.writer.Died?
    && (!r.writer.Done? ==> now == t.target)
    && (r.writer.Done? ==>
          && !r.status.Running? && TempPath(c.action.path) !in ReceiverFiles(c, x)
          && now.Some? && now.value.modified == t.Modified()
          && r.queue.sent <= t.Answer() && Open(now.value.content) == Rebuild(t.Cache(), r.queue.sent)
          && (r.status.Completed? ==> r.queue.sent == t.Answer()))
  }

  /** After the rename the target is the source up to the end of the last forwarded delta,
      and the whole source exactly when every delta was forwarded. */
  ghost predicate TargetIsCut(c: Session, x: Config)
    requires ValidSession(c) && !c.action.direction.Skip?
  {
    var t, r, now := TransferOf(c), Receiver(c, x.state), FileAt(ReceiverFiles(c, x), c.action.path);
    var k := |r.queue.sent|;
    r.writer.Done? ==>
      && k <= |t.Answer()| && Cut(c, k) <= |t.source|
      && now == Some(File(t.source[..Cut(c, k)], t.Modified()))
      && (now == Some(File(t.source, t.Modified())) <==> k == |t.Answer()|)
  }

  lemma DoneMeansForwarded(t: Transfer, l: Local)
    requires t.Valid() && ReceiverInv(t, l)
    ensures !l.side.writer.Died?
    ensures l.side.queue.sent <= t.Answer()
    ensures !l.side.writer.Done? ==> FileAt(l.files, t.Path()) == t.target
    ensures l.side.writer.Done? ==>
      var now := FileAt(l.files, t.Path());
      && !l.side.status.Running? && TempPath(t.Path()) !in l.files
      && now.Some? && now.value.modified == t.Modified()
      && Open(now.value.content) == Rebuild(t.Cache(), l.side.queue.sent)
    ensures l.side.status.Completed? ==> l.side.queue.sent == t.Answer()
  {
    assert TargetInv(t, l);
    hide Transfer.Answer, Transfer.Cache, Transfer.ReceiverOutput, OpeningWork, Rebuild, TempPath, Emits;
    assert l.side.queue.taken == |l.side.queue.sent| ==> t.Answer()[..l.side.queue.taken] == l.side.queue.sent;
  }

  /** The first `k` deltas rebuild a prefix of the source, and all of it only if none is left. */
  lemma CutIsExact(t: Transfer, k: nat)
    requires t.blockSize > 0 && t.CollisionFree() && k <= |t.Answer()|
    ensures var b := Boundary(t.Cache(), t.Answer(), k);
      && b <= |t.source| && Rebuild(t.Cache(), t.Answer()[..k]) == Open(t.source[..b])
      && (b == |t.source| <==> k == |t.Answer()|)
  {
    DeltasTile(t.h, t.Cache(), t.source, t.blockSize);
    PrefixRebuilt(t.Cache(), t.Answer(), t.source, k);
    TilesAt(t.Cache(), t.Answer(), t.source, 0, k);
  }

  lemma InvIsSafe(c: Session, x: Config)
    requires ValidSession(c) && !c.action.direction.Skip?
    requires SessionInv(c, x.clientFiles, x.serverFiles, x.state)
    ensures TargetSafe(c, x)
    ensures CollisionFree(c) ==> TargetIsCut(c, x)
  {
    var t, r := TransferOf(c), Receiver(c, x.state);
    var l := if c.action.direction.Upload? then ServerLocal(x.serverFiles, x.state)
             else ClientLocal(x.clientFiles, x.state);
    hide ValidSession, SenderInv, ReceiverInv, Transfer.Answer, Transfer.Cache, Boundary, Rebuild, TempPath;
    assert ReceiverInv(t, l);
    DoneMeansForwarded(t, l);
    hide SessionInv;
    if CollisionFree(c) {
      CutIsExact(t, |r.queue.sent|);
      assert t.Answer()[..|r.queue.sent|] == r.queue.sent;
      assert t.source[..|t.source|] == t.source;
    }
  }

  /** In every state of every run, aborted or not, the target is safe; without collisions it
      is, after the rename, the source cut where forwarding stopped. */
  lemma TargetIsOldOrPrefix(c: Session, run: seq<Config>, i: nat)
    requires ValidSession(c) && IsRun(c, run) && !c.action.direction.Skip? && i < |run|
    ensures TargetSafe(c, run[i])
    ensures CollisionFree(c) ==> TargetIsCut(c, run[i])
  {
    RunInv(c, run, i);
    InvIsSafe(c, run[i]);
  }

  /** Nothing is lost on the way to the writer: a delta always finds the writer's channel
      open, and every block it refers to is in the writer's cache. */
  lemma NothingLost(c: Session, run: seq<Config>, i: nat)
    requires ValidSession(c) && IsRun(c, run) && !c.action.direction.Skip? && i < |run|
    ensures var r := Receiver(c, run[i].state);
      var inbox := if c.action.direction.Upload? then run[i].state.up else run[i].state.down;
      && (r.status.Running? && r.work == [] && inbox.taken < |inbox.sent| && inbox.sent[inbox.taken].DeltaPayload? ==>
            !r.writer.Idle?)
      && (forall j :: 0 <= j < |r.queue.sent| ==> Usable(TransferOf(c).Cache(), r.queue.sent[j]))
  {
    RunInv(c, run, i);
    var t, r := TransferOf(c), Receiver(c, run[i].state);
    var upload := c.action.direction.Upload?;
    var lc, lv := ClientLocal(run[i].clientFiles, run[i].state), ServerLocal(run[i].serverFiles, run[i].state);
    var ls, lr := if upload then lc else lv, if upload then lv else lc;
    AnswerUsable(t);
    forall j | 0 <= j < |r.queue.sent| ensures Usable(t.Cache(), r.queue.sent[j]) {
      assert r.queue.sent[j] == t.Answer()[j];
    }
    OutputsArePrefixes(t, ls.inbox.taken);
    if lr.inbox.taken <= |t.SenderOpening()| + |t.Answer()| {
      ReceiverOutputStep(t, lr.inbox.taken);
    }
    hide Transfer.Answer, Transfer.Cache, Transfer.SenderOutput, Transfer.ReceiverOutput, Tiles, WellCut;
    assert lr.inbox.taken < |lr.inbox.sent| ==> lr.inbox.sent[lr.inbox.taken] == t.SenderStream()[lr.inbox.taken];
  }
}
