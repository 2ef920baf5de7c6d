/** What every step of a session keeps. One side holds the source file, the other the
    target; the invariant of each speaks of its own state and of the two message streams. */
module SessionInvariant {
  import opened Common
  import opened Messages
  import opened Signatures
  import opened DeltaScan
  import opened ScanProperties
  import opened Writer
  import opened Reconstruction
  import opened Handler
  import opened Protocol

  /** A transfer seen from its roles, whichever side plays which. */
  datatype Transfer = Transfer(h: Hashes, action: FileAction, blockSize: nat, source: Bytes, target: Option<File>) {
    predicate Upload() { action.direction.Upload? }

    function Path(): Path { action.path }

    function Modified(): Timestamp { action.latestModified.GetOr(EPOCH) }

    function Cache(): seq<Bytes>
      requires blockSize > 0
    {
      Chunks(ContentOr(target), blockSize)
    }

    function Ask(): Payload
      requires blockSize > 0
    {
      Signatures(SignAll(h, blockSize, Cache()))
    }

    function Answer(): seq<Delta>
      requires blockSize > 0
    {
      Deltas(h, SignAll(h, blockSize, Cache()), source)
    }

    ghost predicate Valid() {
      blockSize > 0 && action.path != [] && !action.direction.Skip?
    }

    /** What it takes for the answer to stand for the source: the old blocks number at most
        2^32, and none shares both checksums with a window of the source it differs from. */
    ghost predicate CollisionFree()
      requires blockSize > 0
    {
      |Cache()| <= TWO_TO_THE_32 && NoCollision(h, Cache(), source, blockSize)
    }

    // The client opens every session with the action; it comes from the sender of an
    // upload and from the receiver of a download.

    function SenderOpening(): seq<Payload> { if Upload() then [Payload.Action(action)] else [] }

    function ReceiverOpening(): seq<Payload> { if Upload() then [] else [Payload.Action(action)] }

    /** All the sender sends after taking `k` messages: its opening, then, once it has the
        signatures, the answer, then the echo of the receiver's `Complete`. */
    function SenderOutput(k: nat): seq<Payload>
      requires blockSize > 0
    {
      var asked := |ReceiverOpening()| + 1;
      SenderOpening()
      + (if k >= asked then DeltaPayloads(Answer()) + [Complete] else [])
      + (if k > asked then [Complete] else [])
    }

    /** All the receiver sends after taking `k` messages. */
    function ReceiverOutput(k: nat): seq<Payload>
      requires blockSize > 0
    {
      var started := |SenderOpening()|;
      (if k >= started then ReceiverOpening() + [Ask()] else [])
      + (if k > started + |Answer()| then [Complete] else [])
    }

    function SenderStream(): seq<Payload>
      requires blockSize > 0
    {
      SenderOutput(|ReceiverOpening()| + 2)
    }

    function ReceiverStream(): seq<Payload>
      requires blockSize > 0
    {
      ReceiverOutput(|SenderOpening()| + |Answer()| + 1)
    }
  }

  /** What taking message `k` of the receiver's stream adds to the sender's output. */
  lemma SenderOutputStep(t: Transfer, k: nat)
    requires t.blockSize > 0 && k < |t.ReceiverOpening()| + 2
    ensures var asked := |t.ReceiverOpening()|;
      && k < |t.ReceiverStream()|
      && t.ReceiverStream()[k] ==
         (if k < asked then Payload.Action(t.action) else if k == asked then t.Ask() else Complete)
      && t.SenderOutput(k + 1) == t.SenderOutput(k) +
         if k < asked then [] else if k == asked then DeltaPayloads(t.Answer()) + [Complete] else [Complete]
  {
    hide Deltas, SignAll, DeltaPayloads;
  }

  /** What taking message `k` of the sender's stream adds to the receiver's output. */
  lemma ReceiverOutputStep(t: Transfer, k: nat)
    requires t.blockSize > 0 && k <= |t.SenderOpening()| + |t.Answer()|
    ensures var first, n := |t.SenderOpening()|, |t.Answer()|;
      && k < |t.SenderStream()|
      && t.SenderStream()[k] ==
         (if k < first then Payload.Action(t.action)
          else if k < first + n then DeltaPayload(t.Answer()[k - first]) else Complete)
      && t.ReceiverOutput(k + 1) == t.ReceiverOutput(k) +
         if k < first then [t.Ask()] else if k < first + n then [] else [Complete]
  {
    hide Deltas, SignAll;
  }

  lemma EmitsStep(all: seq<Payload>, sent: nat)
    requires sent <= |all|
    ensures sent == |all| ==> Emits(all[sent..]) == []
    ensures sent < |all| ==> Emits(all[sent..]) == [Emit(all[sent])] + Emits(all[sent + 1..])
  {
  }

  lemma Appended(before: seq<Payload>, more: seq<Payload>)
    ensures (before + more)[|before|..] == more && before <= before + more
    ensures Emits([]) == [] && Emits([Complete]) == [Emit(Complete)]
  {
  }

  lemma PrefixStep<T>(sent: seq<T>, all: seq<T>)
    requires sent <= all && |sent| < |all|
    ensures sent + [all[|sent|]] <= all
  {
  }

  // ---------- The sender ----------

  ghost predicate SenderInv(t: Transfer, l: Local)
    requires t.Valid()
  {
    var s, k, last := l.side, l.inbox.taken, |t.ReceiverOpening()| + 2;
    && t.Path() in l.files && l.files[t.Path()].content == t.source
    && s.writer.Idle? && s.queue == NO_DELTAS
    && k <= last
    && (t.Upload() || k > 0 ==> s.filePath == t.Path())
    && l.outbox.sent <= t.SenderOutput(k)
    && match s.status
       case Aborted => s.work == []
       case Completed => k == last && s.work == [] && l.outbox.sent == t.SenderStream()
       case Running =>
         s.work == Emits(t.SenderOutput(k)[|l.outbox.sent|..]) + if k == last then [Finish] else []
  }

  lemma SenderWorks(t: Transfer, blockSize: nat, l: Local, l': Local)
    requires t.Valid() && SenderInv(t, l)
    requires blockSize > 0 && WorkStep(t.h, blockSize, l, l')
    ensures SenderInv(t, l') && l'.files == l.files
  {
    hide Deltas, SignAll, Chunks;
    hide Transfer.SenderOutput, Transfer.ReceiverOutput, Emits;
    var k, sent := l.inbox.taken, |l.outbox.sent|;
    var all := t.SenderOutput(k);
    EmitsStep(all, sent);
    if sent < |all| {
      PrefixStep(l.outbox.sent, all);
    }
  }

  lemma SenderReceives(t: Transfer, blockSize: nat, l: Local, l': Local)
    requires t.Valid() && SenderInv(t, l) && l.inbox.sent <= t.ReceiverStream()
    requires blockSize > 0 && ReceiveStep(t.h, blockSize, l, l')
    ensures SenderInv(t, l') && l'.files == l.files && l'.side.status == Running
  {
    assert t.Ask().signatures.blockSize == t.blockSize;
    hide Deltas, SignAll, Chunks, DeltaPayloads;
    hide Transfer.SenderOutput, Transfer.ReceiverOutput, Emits;
    var k, sent := l.inbox.taken, |l.outbox.sent|;
    SenderOutputStep(t, k);
    EmitsStep(t.SenderOutput(k), sent);
    assert l.inbox.sent[k] == t.ReceiverStream()[k];
    assert l.outbox.sent == t.SenderOutput(k);
    Appended(t.SenderOutput(k), if k < |t.ReceiverOpening()| then []
                                else if k == |t.ReceiverOpening()| then DeltaPayloads(t.Answer()) + [Complete]
                                else [Complete]);
  }

  /** Whatever the sender does, its source file and the whole of its disk stay as they are. */
  lemma SenderSteps(t: Transfer, blockSize: nat, l: Local, l': Local)
    requires t.Valid() && SenderInv(t, l) && l.inbox.sent <= t.ReceiverStream()
    requires blockSize > 0 && LocalStep(t.h, blockSize, l, l')
    ensures SenderInv(t, l') && l'.files == l.files
  {
    if WorkStep(t.h, blockSize, l, l') {
      SenderWorks(t, blockSize, l, l');
    } else if ReceiveStep(t.h, blockSize, l, l') {
      SenderReceives(t, blockSize, l, l');
    }
  }

  // ---------- The receiver ----------

  /** What is on the receiver's disk, by the state of its writer: the old target until the
      rename, then the deltas written so far and nothing else. */
  ghost predicate TargetInv(t: Transfer, l: Local)
    requires t.Valid()
  {
    var queue, temp, now := l.side.queue, TempPath(t.Path()), FileAt(l.files, t.Path());
    && queue.taken <= |queue.sent| && queue.sent <= t.Answer()
    && match l.side.writer
       case Idle => now == t.target && queue.sent == []
       case Spawned(path, cache, modified) =>
         && path == t.Path() && cache == t.Cache() && modified == t.Modified()
         && now == t.target && queue.taken == 0
       case Writing(path, cache, modified) =>
         && path == t.Path() && cache == t.Cache() && modified == t.Modified()
         && now == t.target && temp in l.files
         && Open(l.files[temp].content) == Rebuild(t.Cache(), t.Answer()[..queue.taken])
       case Done =>
         && l.side.status != Running && queue.taken == |queue.sent|
         && temp !in l.files && now.Some? && now.value.modified == t.Modified()
         && Open(now.value.content) == Rebuild(t.Cache(), t.Answer()[..queue.taken])
       case Died => false
  }

  /** The receiver's moves before its writer is open. */
  function OpeningWork(t: Transfer): seq<Work>
    requires t.blockSize > 0
  {
    if t.Upload() then [Emit(t.Ask()), OpenWriter(t.Path(), t.Cache(), t.Modified())]
    else [Emit(Payload.Action(t.action)), SendFileSignatures, OpenWriterOnFile(t.Modified())]
  }

  ghost predicate ReceiverInv(t: Transfer, l: Local)
    requires t.Valid()
  {
    var s, k, first, n := l.side, l.inbox.taken, |t.SenderOpening()|, |t.Answer()|;
    && TargetInv(t, l)
    && k <= first + n + 1
    && (!t.Upload() || k > 0 ==> s.filePath == t.Path())
    && l.outbox.sent <= t.ReceiverOutput(k)
    && match s.status
       case Aborted => s.work == []
       case Completed =>
         && k == first + n + 1 && s.work == [] && !s.writer.Idle?
         && l.outbox.sent == t.ReceiverStream() && s.queue.sent == t.Answer()
       case Running =>
         if k < first then s.work == [] && s.writer.Idle?
         else if s.writer.Idle? then
           k == first && |l.outbox.sent| < |OpeningWork(t)| && s.work == OpeningWork(t)[|l.outbox.sent|..]
         else if k <= first + n then
           && l.outbox.sent == t.ReceiverOutput(k)
           && (|| (s.work == [] && s.queue.sent == t.Answer()[..k - first])
               || (k > first && s.work == [Forward(t.Answer()[k - first - 1])]
                   && s.queue.sent == t.Answer()[..k - first - 1]))
         else
           && s.queue.sent == t.Answer()
           && s.work == Emits(t.ReceiverOutput(k)[|l.outbox.sent|..]) + [Finish]
  }

  /** What a step may change on a disk: only the session's path and its temporary file. */
  ghost predicate Framed(path: Path, files: Files, files': Files) {
    forall p :: p != path && p != TempPath(path) ==> FileAt(files', p) == FileAt(files, p)
  }

  /** Before its writer is open the receiver goes through its opening moves. */
  lemma ReceiverOpens(t: Transfer, l: Local, l': Local)
    requires t.Valid() && ReceiverInv(t, l) && l.side.writer.Idle?
    requires WorkStep(t.h, t.blockSize, l, l')
    ensures ReceiverInv(t, l') && l'.files == l.files
  {
    hide Deltas, SignAll, Chunks, Rebuild, TempPath;
    assert l.side.work[1..] == OpeningWork(t)[|l.outbox.sent| + 1..];
    assert t.Answer()[..0] == [];
  }

  lemma ReceiverForwards(t: Transfer, l: Local, l': Local)
    requires t.Valid() && ReceiverInv(t, l) && !l.side.writer.Idle?
    requires l.inbox.taken <= |t.SenderOpening()| + |t.Answer()|
    requires WorkStep(t.h, t.blockSize, l, l')
    ensures ReceiverInv(t, l') && l'.files == l.files
  {
    hide Transfer.Answer, Transfer.ReceiverOutput, Rebuild, TempPath;
    var j := l.inbox.taken - |t.SenderOpening()| - 1;
    assert t.Answer()[..j] + [t.Answer()[j]] == t.Answer()[..j + 1];
  }

  lemma ReceiverCloses(t: Transfer, l: Local, l': Local)
    requires t.Valid() && ReceiverInv(t, l) && !l.side.writer.Idle?
    requires l.inbox.taken > |t.SenderOpening()| + |t.Answer()|
    requires WorkStep(t.h, t.blockSize, l, l')
    ensures ReceiverInv(t, l') && l'.files == l.files
  {
    hide Transfer.Answer, Transfer.ReceiverOutput, Rebuild, TempPath, Emits;
    var all, sent := t.ReceiverOutput(l.inbox.taken), |l.outbox.sent|;
    EmitsStep(all, sent);
    if sent < |all| {
      PrefixStep(l.outbox.sent, all);
    }
  }

  lemma ReceiverTakesAction(t: Transfer, l: Local, l': Local)
    requires t.Valid() && ReceiverInv(t, l) && l.inbox.sent <= t.SenderStream()
    requires l.inbox.taken < |t.SenderOpening()| && ReceiveStep(t.h, t.blockSize, l, l')
    ensures ReceiverInv(t, l') && l'.files == l.files && l'.side.status == Running
  {
    hide Deltas, SignAll, Chunks, Rebuild, TempPath;
    ReceiverOutputStep(t, l.inbox.taken);
    assert l.inbox.sent[l.inbox.taken] == Payload.Action(t.action);
    assert OpeningWork(t)[0..] == OpeningWork(t);
  }

  lemma ReceiverTakesDelta(t: Transfer, l: Local, l': Local)
    requires t.Valid() && ReceiverInv(t, l) && l.inbox.sent <= t.SenderStream()
    requires |t.SenderOpening()| <= l.inbox.taken < |t.SenderOpening()| + |t.Answer()|
    requires ReceiveStep(t.h, t.blockSize, l, l')
    ensures ReceiverInv(t, l') && l'.files == l.files && l'.side.status == Running
  {
    var k := l.inbox.taken;
    ReceiverOutputStep(t, k);
    hide Transfer.Answer, Transfer.ReceiverOutput, Transfer.SenderOutput, Rebuild, TempPath;
    assert l.inbox.sent[k] == DeltaPayload(t.Answer()[k - |t.SenderOpening()|]);
  }

  lemma ReceiverTakesComplete(t: Transfer, l: Local, l': Local)
    requires t.Valid() && ReceiverInv(t, l) && l.inbox.sent <= t.SenderStream()
    requires l.inbox.taken >= |t.SenderOpening()| + |t.Answer()|
    requires ReceiveStep(t.h, t.blockSize, l, l')
    ensures ReceiverInv(t, l') && l'.files == l.files && l'.side.status == Running
  {
    var k, n, sent := l.inbox.taken, |t.Answer()|, |l.outbox.sent|;
    if k == |t.SenderOpening()| + n {
      ReceiverOutputStep(t, k);
      Appended(t.ReceiverOutput(k), [Complete]);
      assert t.Answer()[..n] == t.Answer();
      hide Transfer.Answer, Transfer.ReceiverOutput, Transfer.SenderOutput, Rebuild, TempPath, Emits;
      assert l.inbox.sent[k] == Complete;
    } else {
      hide Transfer.Answer, Transfer.ReceiverOutput, Transfer.SenderOutput, Rebuild, TempPath, Emits;
    }
  }

  lemma TargetCreated(t: Transfer, l: Local, l': Local)
    requires t.Valid() && TargetInv(t, l) && l.side.writer.Spawned? && WriterStep(l, l')
    ensures TargetInv(t, l') && Framed(t.Path(), l.files, l'.files)
  {
    EmptyRebuild(t.Cache());
    assert t.Answer()[..0] == [];
    assert TempPath(t.Path()) != t.Path();
    hide Transfer.Answer, Transfer.Cache, Rebuild, TempPath;
  }

  lemma AnswerUsable(t: Transfer)
    requires t.blockSize > 0
    ensures forall d :: d in t.Answer() ==> Usable(t.Cache(), d)
  {
    ScanUsable(t.h, t.Cache(), t.source, t.blockSize, 0, 0);
  }

  lemma TargetWritten(t: Transfer, l: Local, l': Local)
    requires t.Valid() && TargetInv(t, l) && l.side.writer.Writing? && WriterStep(l, l')
    requires !l.side.queue.Empty()
    ensures TargetInv(t, l') && Framed(t.Path(), l.files, l'.files)
  {
    var j := l.side.queue.taken;
    assert TempPath(t.Path()) != t.Path();
    AnswerUsable(t);
    UsableRebuilds(t.Cache(), t.Answer()[..j + 1]);
    hide *;
    RebuildStep(t.Cache(), t.Answer(), j);
    TargetTakes(t, l, l');
  }

  lemma TargetTakes(t: Transfer, l: Local, l': Local)
    requires t.Valid() && TargetInv(t, l) && l.side.writer.Writing? && WriterStep(l, l')
    requires !l.side.queue.Empty()
    requires var j := l.side.queue.taken;
      && Rebuild(t.Cache(), t.Answer()[..j + 1]) == Apply(t.Cache(), Rebuild(t.Cache(), t.Answer()[..j]), t.Answer()[j])
      && Rebuild(t.Cache(), t.Answer()[..j + 1]).Open?
    ensures TargetInv(t, l') && Framed(t.Path(), l.files, l'.files)
  {
    assert TempPath(t.Path()) != t.Path();
    hide Transfer.Answer, Transfer.Cache, Rebuild, TempPath, Apply;
    assert l.side.queue.sent[l.side.queue.taken] == t.Answer()[l.side.queue.taken];
  }

  lemma TargetRenamed(t: Transfer, l: Local, l': Local)
    requires t.Valid() && TargetInv(t, l) && l.side.writer.Writing? && WriterStep(l, l')
    requires l.side.queue.Empty()
    ensures TargetInv(t, l') && Framed(t.Path(), l.files, l'.files)
  {
    assert TempPath(t.Path()) != t.Path();
    hide Transfer.Answer, Transfer.Cache, Rebuild, TempPath;
  }

  /** The writer, too, keeps the invariant: it neither fails nor loses a delta. */
  lemma ReceiverWrites(t: Transfer, l: Local, l': Local)
    requires t.Valid() && ReceiverInv(t, l) && WriterStep(l, l')
    ensures ReceiverInv(t, l') && Framed(t.Path(), l.files, l'.files)
  {
    hide TargetInv, Framed, Transfer.Answer, Transfer.Cache, Transfer.ReceiverOutput, OpeningWork;
    if l.side.writer.Spawned? {
      TargetCreated(t, l, l');
    } else if l.side.queue.Empty() {
      TargetRenamed(t, l, l');
    } else {
      TargetWritten(t, l, l');
    }
  }

  lemma ReceiverAborts(t: Transfer, l: Local, l': Local)
    requires t.Valid() && ReceiverInv(t, l) && AbortStep(l, l')
    ensures ReceiverInv(t, l') && Framed(t.Path(), l.files, l'.files)
  {
    hide Transfer.Answer, Transfer.ReceiverOutput, Rebuild;
  }

  /** Every message the receiver takes is the one it expects. */
  lemma ReceiverReceives(t: Transfer, l: Local, l': Local)
    requires t.Valid() && ReceiverInv(t, l) && l.inbox.sent <= t.SenderStream()
    requires ReceiveStep(t.h, t.blockSize, l, l')
    ensures ReceiverInv(t, l') && l'.files == l.files && l'.side.status == Running
  {
    var k, first, n := l.inbox.taken, |t.SenderOpening()|, |t.Answer()|;
    hide *;
    if k < first {
      ReceiverTakesAction(t, l, l');
    } else if k < first + n {
      ReceiverTakesDelta(t, l, l');
    } else {
      ReceiverTakesComplete(t, l, l');
    }
  }

  /** Whatever the receiver does, nothing on its disk changes but the target and its
      temporary file, and these only as the writer's state says. */
  lemma ReceiverSteps(t: Transfer, l: Local, l': Local)
    requires t.Valid() && ReceiverInv(t, l) && l.inbox.sent <= t.SenderStream()
    requires LocalStep(t.h, t.blockSize, l, l')
    ensures ReceiverInv(t, l') && Framed(t.Path(), l.files, l'.files)
  {
    var k, first, n := l.inbox.taken, |t.SenderOpening()|, |t.Answer()|;
    if AbortStep(l, l') {
      ReceiverAborts(t, l, l');
    } else if WriterStep(l, l') {
      ReceiverWrites(t, l, l');
    } else if WorkStep(t.h, t.blockSize, l, l') {
      hide *;
      if l.side.writer.Idle? {
        ReceiverOpens(t, l, l');
      } else if k <= first + n {
        ReceiverForwards(t, l, l');
      } else {
        ReceiverCloses(t, l, l');
      }
      FilesKept(t, l, l');
    } else {
      assert ReceiveStep(t.h, t.blockSize, l, l');
      hide *;
      ReceiverReceives(t, l, l');
      FilesKept(t, l, l');
    }
  }

  lemma FilesKept(t: Transfer, l: Local, l': Local)
    requires l'.files == l.files
    ensures Framed(t.Path(), l.files, l'.files)
  {
  }
}
