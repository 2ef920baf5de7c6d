/** What single steps of an endpoint do at the edges: full channels, a missing source, deltas
    that cannot be written. No transfer that keeps its invariant comes there, so this is said
    of any endpoint in any state. */
module ProtocolSteps {
  import opened Common
  import opened Messages
  import opened Signatures
  import opened Writer
  import opened Handler
  import opened Protocol
  import opened SessionTheorems

  // ---------- Channels ----------

  ghost predicate NotOverfull(l: Local) {
    && |l.inbox.sent| - l.inbox.taken <= 256 && |l.outbox.sent| - l.outbox.taken <= 256
    && |l.side.queue.sent| - l.side.queue.taken <= 512
  }

  lemma StepsNeverOverfill(h: Hashes, blockSize: nat, l: Local, l': Local)
    requires blockSize > 0 && LocalStep(h, blockSize, l, l') && NotOverfull(l)
    ensures NotOverfull(l')
  {
    hide SignAll, FileBlocks, Respond, Apply;
  }

  /** In every state of every run at most 256 messages are under way in either direction, and
      at most 512 deltas to either writer. */
  lemma {:induction false} ChannelsNeverOverfull(c: Session, run: seq<Config>, i: nat)
    requires ValidSession(c) && IsRun(c, run) && i < |run|
    ensures var s := run[i].state;
      && |s.up.sent| - s.up.taken <= 256 && |s.down.sent| - s.down.taken <= 256
      && |s.client.queue.sent| - s.client.queue.taken <= 512 && |s.server.queue.sent| - s.server.queue.taken <= 512
  {
    hide LocalStep, ValidSession;
    if i > 0 {
      ChannelsNeverOverfull(c, run, i - 1);
      var x, y := run[i - 1], run[i];
      assert Next(c, x, y);
      if y.serverFiles == x.serverFiles && ClientStep(c, x.clientFiles, x.state, y.clientFiles, y.state) {
        StepsNeverOverfill(c.h, c.clientBlockSize, ClientLocal(x.clientFiles, x.state), ClientLocal(y.clientFiles, y.state));
      } else {
        StepsNeverOverfill(c.h, c.serverBlockSize, ServerLocal(x.serverFiles, x.state), ServerLocal(y.serverFiles, y.state));
      }
    }
  }

  /** An endpoint can send exactly while fewer than 256 of its messages are under way, and
      forward exactly while fewer than 512 deltas wait for a writer that lives. */
  lemma SendsExactlyWithRoom(h: Hashes, blockSize: nat, l: Local)
    requires blockSize > 0 && l.side.status == Running && l.side.work != []
    ensures l.side.work[0].Emit? || l.side.work[0].SendFileSignatures? ==>
      ((exists l' :: WorkStep(h, blockSize, l, l')) <==> |l.outbox.sent| - l.outbox.taken < 256)
    ensures l.side.work[0].Forward? ==>
      ((exists l' :: WorkStep(h, blockSize, l, l')) <==>
        |l.side.queue.sent| - l.side.queue.taken < 512 && !l.side.writer.Died?)
  {
    hide SignAll, FileBlocks;
    var s := l.side.(work := l.side.work[1..]);
    match l.side.work[0] {
      case Emit(m) =>
        if |l.outbox.sent| - l.outbox.taken < 256 {
          assert WorkStep(h, blockSize, l, l.(side := s, outbox := l.outbox.Push(m)));
        }
      case SendFileSignatures =>
        if |l.outbox.sent| - l.outbox.taken < 256 {
          var m := Payload.Signatures(SignAll(h, blockSize, FileBlocks(l.files, s.filePath, blockSize)));
          assert WorkStep(h, blockSize, l, l.(side := s, outbox := l.outbox.Push(m)));
        }
      case Forward(d) =>
        if |l.side.queue.sent| - l.side.queue.taken < 512 && !l.side.writer.Died? {
          assert WorkStep(h, blockSize, l, l.(side := s.(queue := s.queue.Push(d))));
        }
      case _ =>
    }
  }

  // ---------- Messages ----------

  /** A session begins with the action, whatever it is; a download adds the signatures of the
      client's file and then its writer, with the time zero if the action has none. */
  lemma OpeningMoves(a: FileAction)
    ensures ClientProgram(a) ==
      if a.direction == Download then
        [Emit(Action(a)), SendFileSignatures,
         OpenWriterOnFile(if a.latestModified.Some? then a.latestModified.value else Timestamp(0, 0))]
      else [Emit(Action(a))]
  {
  }

  /** A server that has been sent no action knows no path: signatures end it, on any disk
      whose files have paths. */
  lemma SignaturesNeedAction(h: Hashes, blockSize: nat, files: Files, a: FileAction, s: State, signatures: BlockSignatures, l': Local)
    requires blockSize > 0 && [] !in files
    requires s.server == InitialState(a).server && s.up == Channel([Payload.Signatures(signatures)], 0)
    requires LocalStep(h, blockSize, ServerLocal(files, s), l')
    ensures l'.side.status == Aborted && l'.files == files && l'.outbox == s.down
    ensures InitialState(a).client.filePath == a.path
  {
  }

  /** Signatures for a file that is missing end the endpoint: it answers nothing. */
  lemma MissingSourceAborts(h: Hashes, blockSize: nat, l: Local, l': Local)
    requires blockSize > 0 && ReceiveStep(h, blockSize, l, l')
    requires l.inbox.sent[l.inbox.taken].Signatures? && l.side.filePath !in l.files
    ensures l'.side.status == Aborted && l'.side.work == [] && l'.outbox == l.outbox && l'.files == l.files
    ensures l'.side.queue == l.side.queue && l'.side.writer == l.side.writer
  {
  }

  /** A delta that comes before a writer is open is dropped, one that comes after is forwarded. */
  lemma DeltasNeedWriter(h: Hashes, blockSize: nat, l: Local, l': Local)
    requires blockSize > 0 && ReceiveStep(h, blockSize, l, l') && l.inbox.sent[l.inbox.taken].DeltaPayload?
    ensures l'.side == l.side.(work := if l.side.writer.Idle? then [] else [Forward(l.inbox.sent[l.inbox.taken].delta)])
    ensures l'.outbox == l.outbox && l'.files == l.files
  {
  }

  /** A message is taken once, the oldest first, and only by a running endpoint with nothing
      else to do. */
  lemma TakesOldest(h: Hashes, blockSize: nat, l: Local, l': Local)
    requires blockSize > 0 && ReceiveStep(h, blockSize, l, l')
    ensures l.side.status == Running && l.side.work == [] && l.inbox.taken < |l.inbox.sent|
    ensures l'.inbox.sent == l.inbox.sent && l'.inbox.taken == l.inbox.taken + 1
    ensures l'.outbox == l.outbox && l'.files == l.files
  {
    hide Respond;
  }

  // ---------- The writer ----------

  /** A delta that breaks kills the writer and changes no file; any other is written at its
      offset into the temporary file alone. */
  lemma WriterWritesOrDies(l: Local, l': Local)
    requires WriterStep(l, l') && l.side.writer.Writing? && !l.side.queue.Empty()
    ensures var d, temp := l.side.queue.sent[l.side.queue.taken], TempPath(l.side.writer.path);
      && temp in l.files && temp in l'.files
      && (forall p :: p != temp ==> FileAt(l'.files, p) == FileAt(l.files, p))
      && l'.side.status == l.side.status && l'.side.queue.taken == l.side.queue.taken + 1
      && if Breaks(l.side.writer.cache, d) then
           l'.side.writer == Died && l'.files[temp].content == l.files[temp].content
         else
           && l'.side.writer == l.side.writer
           && l'.files[temp].content == WriteAt(l.files[temp].content, d.index,
                if d.instruction.value.Literal? then d.instruction.value.bytes
                else l.side.writer.cache[d.instruction.value.block])
  {
    hide WriteAt, TempPath;
  }

  /** A dead writer does nothing, and one whose channel is open and drained waits. */
  lemma WriterRests(l: Local, l': Local)
    requires l.side.writer.Died? || l.side.writer.Done? || l.side.writer.Idle?
      || (l.side.writer.Writing? && l.side.queue.Empty() && l.side.status == Running)
    ensures !WriterStep(l, l')
  {
  }
}
