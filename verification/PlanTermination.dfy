/** Every execution of a plan ends, whatever the paths, the hashes and the aborts: each message
    pays for the work it causes, and no file outgrows what its deltas can reach. */
module PlanTermination {
  import opened Common
  import opened Messages
  import opened Signatures
  import opened DeltaScan
  import opened Writer
  import opened Handler
  import opened Protocol
  import opened SessionTheorems
  import opened PlanExecution

  // ---------- What a message can still cause ----------

  /** Two ways to count what is pending: the answers still to be given to signatures, and all
      the steps still to be made when an answer has at most `deltas` deltas. */
  datatype Measure = Answers | Steps(deltas: nat)

  function OfMessage(u: Measure, m: Payload): nat {
    match (u, m)
    case (Answers, Action(a)) => if a.direction.Upload? then 1 else 0
    case (Answers, Signatures(_)) => 1
    case (Answers, _) => 0
    case (Steps(n), Action(a)) => if a.direction.Upload? then 4 * n + 9 else 1
    case (Steps(n), Signatures(_)) => 4 * n + 3
    case (Steps(_), DeltaPayload(_)) => 3
    case (Steps(_), Complete) => 1
  }

  function OfWork(u: Measure, item: Work): nat {
    match item
    case Emit(m) => OfMessage(u, m) + (if u.Steps? then 1 else 0)
    case SendFileSignatures => if u.Steps? then 4 * u.deltas + 4 else 1
    case Forward(_) => if u.Steps? then 2 else 0
    case Finish => if u.Steps? then 1 else 0
    case OpenWriter(_, _, _) => if u.Steps? then 4 else 0
    case OpenWriterOnFile(_) => if u.Steps? then 4 else 0
  }

  function MessageSum(u: Measure, ms: seq<Payload>): nat {
    if ms == [] then 0 else OfMessage(u, ms[0]) + MessageSum(u, ms[1..])
  }

  function WorkSum(u: Measure, work: seq<Work>): nat {
    if work == [] then 0 else OfWork(u, work[0]) + WorkSum(u, work[1..])
  }

  function Untaken<T>(c: Channel<T>): seq<T> {
    if c.taken <= |c.sent| then c.sent[c.taken..] else []
  }

  /** What a side holds back for the echo it owes, and what its writer has still to do. */
  function OfSide(u: Measure, s: Side): nat {
    WorkSum(u, s.work) +
    if u.Answers? then 0
    else
      |Untaken(s.queue)|
      + (if !s.status.Running? then 0 else if Finish in s.work then 2 else 5)
      + match s.writer
        case Spawned(_, _, _) => 3
        case Writing(_, _, _) => 2
        case _ => 0
  }

  function OfLocal(u: Measure, l: Local): nat {
    OfSide(u, l.side) + MessageSum(u, Untaken(l.inbox)) + MessageSum(u, Untaken(l.outbox))
  }

  function OfSession(u: Measure, s: State): nat {
    OfSide(u, s.client) + OfSide(u, s.server) + MessageSum(u, Untaken(s.up)) + MessageSum(u, Untaken(s.down))
  }

  lemma {:induction false} MessageSumConcat(u: Measure, a: seq<Payload>, b: seq<Payload>)
    ensures MessageSum(u, a + b) == MessageSum(u, a) + MessageSum(u, b)
    decreases |a|
  {
    if a == [] {
      assert a + b == b;
    } else {
      assert (a + b)[1..] == a[1..] + b;
      MessageSumConcat(u, a[1..], b);
    }
  }

  lemma Pushed(u: Measure, c: Channel<Payload>, m: Payload)
    ensures MessageSum(u, Untaken(c.Push(m))) <= MessageSum(u, Untaken(c)) + OfMessage(u, m)
  {
    if c.taken <= |c.sent| {
      assert Untaken(c.Push(m)) == Untaken(c) + [m];
      MessageSumConcat(u, Untaken(c), [m]);
      assert MessageSum(u, [m]) == OfMessage(u, m);
    } else {
      assert Untaken(c.Push(m)) == [];
    }
  }

  lemma Popped(u: Measure, c: Channel<Payload>)
    requires c.taken < |c.sent|
    ensures MessageSum(u, Untaken(c)) == OfMessage(u, c.sent[c.taken]) + MessageSum(u, Untaken(c.Pop()))
  {
    assert Untaken(c)[0] == c.sent[c.taken] && Untaken(c)[1..] == Untaken(c.Pop());
  }

  lemma QueuePushed(c: Channel<Delta>, d: Delta)
    ensures |Untaken(c.Push(d))| <= |Untaken(c)| + 1
  {
  }

  /** The work that an answer of deltas is. */
  lemma {:induction false} AnswerSum(u: Measure, ds: seq<Delta>)
    ensures WorkSum(u, Emits(DeltaPayloads(ds) + [Complete])) == if u.Answers? then 0 else 4 * |ds| + 2
    ensures Finish !in Emits(DeltaPayloads(ds) + [Complete])
    decreases |ds|
  {
    var all := DeltaPayloads(ds) + [Complete];
    if ds == [] {
      assert Emits(all) == [Emit(Complete)];
      assert WorkSum(u, [Emit(Complete)]) == OfWork(u, Emit(Complete)) + WorkSum(u, []);
    } else {
      AnswerSum(u, ds[1..]);
      assert all[1..] == DeltaPayloads(ds[1..]) + [Complete];
      assert Emits(all)[1..] == Emits(all[1..]);
      assert Emits(all)[0] == Emit(DeltaPayload(ds[0]));
    }
  }

  // ---------- Every step burns some of it ----------

  /** No file on the disk is longer. */
  ghost predicate FilesWithin(files: Files, longest: nat) {
    forall p :: p in files ==> |files[p].content| <= longest
  }

  lemma {:induction false} ScanIsShort(m: Matcher, data: Bytes, blockSize: nat, start: nat, i: nat)
    requires blockSize > 0 && start <= i <= |data|
    ensures |Scan(m, data, blockSize, start, i)| <= 2 * (|data| - i) + 1
    decreases |data| - i
  {
    hide Matcher.Find;
    if i + blockSize <= |data| && m.Find(data[i..i + blockSize]).Some? {
      ScanIsShort(m, data, blockSize, i + blockSize, i + blockSize);
    } else if i < |data| && i + 1 - start >= MAX_LITERAL_CHUNK_SIZE {
      ScanIsShort(m, data, blockSize, i + 1, i + 1);
    } else if i < |data| {
      ScanIsShort(m, data, blockSize, start, i + 1);
    }
  }

  /** What taking a message leaves to do is less than what it counted for. */
  lemma ResponseCosts(u: Measure, h: Hashes, blockSize: nat, files: Files, filePath: Path, writerOpen: bool, m: Payload,
                      longest: nat)
    requires blockSize > 0 && FilesWithin(files, longest) && (u.Steps? ==> u.deltas >= 2 * longest + 1)
    ensures var response := Respond(h, blockSize, files, filePath, writerOpen, m);
      response.Response? ==>
        && (m.Complete? ==> response.work == [Emit(Complete), Finish])
        && (!m.Complete? ==> Finish !in response.work && WorkSum(u, response.work) <= OfMessage(u, m)
                             && (u.Steps? ==> WorkSum(u, response.work) < OfMessage(u, m)))
        && (u.Answers? && m.Signatures? ==> WorkSum(u, response.work) == 0)
  {
    hide SignAll, FileBlocks, Deltas;
    match m {
      case Action(a) =>
        if a.direction.Upload? {
          var cache := FileBlocks(files, a.path, blockSize);
          var work := [Emit(Payload.Signatures(SignAll(h, blockSize, cache))), OpenWriter(a.path, cache, a.latestModified.GetOr(EPOCH))];
          assert WorkSum(u, work[1..]) == OfWork(u, work[1]) + WorkSum(u, work[2..]);
          assert WorkSum(u, work) == OfWork(u, work[0]) + WorkSum(u, work[1..]);
        }
      case Signatures(s) =>
        if s.blockSize > 0 && filePath in files {
          AnswerSum(u, Deltas(h, s, files[filePath].content));
          AnswerIsShort(h, s, files[filePath].content);
        }
      case DeltaPayload(d) =>
        assert WorkSum(u, [Forward(d)]) == OfWork(u, Forward(d)) + WorkSum(u, []);
      case Complete =>
    }
  }

  lemma AnswerIsShort(h: Hashes, s: BlockSignatures, data: Bytes)
    requires s.blockSize > 0
    ensures |Deltas(h, s, data)| <= 2 * |data| + 1
  {
    ScanIsShort(BySignature(h, s), data, s.blockSize, 0, 0);
  }

  /** Doing the first item of work takes its weight off the side. */
  lemma ItemBurns(u: Measure, s: Side, s': Side)
    requires s.status == Running && s.work != [] && s'.work == s.work[1..]
    requires s'.status == if s.work[0].Finish? then Status.Completed else Running
    requires var grows := |Untaken(s'.queue)| - |Untaken(s.queue)|; grows <= if s.work[0].Forward? then 1 else 0
    requires if s.work[0].OpenWriter? || s.work[0].OpenWriterOnFile? then s'.writer.Spawned? && s.writer.Idle?
             else s'.writer == s.writer
    ensures OfSide(u, s') + OfWork(u, s.work[0]) <= OfSide(u, s) +
      if u.Answers? then 0 else match s.work[0] case Forward(_) => 1 case OpenWriter(_, _, _) => 3 case OpenWriterOnFile(_) => 3 case _ => 0
  {
    assert WorkSum(u, s.work) == OfWork(u, s.work[0]) + WorkSum(u, s'.work);
    assert s.work[0] != Finish ==> (Finish in s.work <==> Finish in s'.work);
    hide WorkSum, Untaken;
  }

  lemma WorkBurns(u: Measure, h: Hashes, blockSize: nat, l: Local, l': Local)
    requires blockSize > 0 && WorkStep(h, blockSize, l, l')
    ensures OfLocal(u, l') <= OfLocal(u, l) && (u.Steps? ==> OfLocal(u, l') < OfLocal(u, l))
  {
    hide SignAll, FileBlocks, MessageSum, OfSide, Untaken;
    match l.side.work[0] {
      case Emit(m) =>
        Pushed(u, l.outbox, m);
      case SendFileSignatures =>
        Pushed(u, l.outbox, Payload.Signatures(SignAll(h, blockSize, FileBlocks(l.files, l.side.filePath, blockSize))));
      case Forward(d) =>
        QueuePushed(l.side.queue, d);
      case _ =>
    }
    ItemBurns(u, l.side, l'.side);
  }

  lemma ReceiveBurns(u: Measure, h: Hashes, blockSize: nat, l: Local, l': Local, longest: nat)
    requires blockSize > 0 && ReceiveStep(h, blockSize, l, l')
    requires FilesWithin(l.files, longest) && (u.Steps? ==> u.deltas >= 2 * longest + 1)
    ensures OfLocal(u, l') <= OfLocal(u, l) && (u.Steps? ==> OfLocal(u, l') < OfLocal(u, l))
    ensures u.Answers? && l.inbox.sent[l.inbox.taken].Signatures? ==> OfLocal(u, l') == OfLocal(u, l) - 1
  {
    var m := l.inbox.sent[l.inbox.taken];
    ResponseCosts(u, h, blockSize, l.files, l.side.filePath, !l.side.writer.Idle?, m, longest);
    Popped(u, l.inbox);
    EchoCosts(u);
    hide Respond, MessageSum, FilesWithin, WorkSum, Untaken;
    assert WorkSum(u, l.side.work) == 0 by { NoWork(u); }
  }

  lemma NoWork(u: Measure)
    ensures WorkSum(u, []) == 0
  {
  }

  lemma EchoCosts(u: Measure)
    ensures WorkSum(u, [Emit(Complete), Finish]) == if u.Answers? then 0 else 3
  {
    var work := [Emit(Complete), Finish];
    assert WorkSum(u, work[1..]) == OfWork(u, Finish) + WorkSum(u, []);
    assert WorkSum(u, work) == OfWork(u, work[0]) + WorkSum(u, work[1..]);
  }

  lemma OtherStepsBurn(u: Measure, l: Local, l': Local)
    requires AbortStep(l, l') || WriterStep(l, l')
    ensures OfLocal(u, l') <= OfLocal(u, l) && (u.Steps? ==> OfLocal(u, l') < OfLocal(u, l))
  {
    hide MessageSum, Apply;
  }

  // ---------- No file outgrows its deltas ----------

  /** The delta writes nothing past `reach`, whatever block of the given size it names. */
  predicate DeltaWithin(d: Delta, blockSize: nat, reach: nat) {
    match d.instruction
    case Some(BlockIndex(_)) => d.index + blockSize <= reach
    case Some(Literal(bytes)) => d.index + |bytes| <= reach
    case None => true
  }

  predicate MessageWithin(m: Payload, blockSize: nat, reach: nat) {
    m.DeltaPayload? ==> DeltaWithin(m.delta, blockSize, reach)
  }

  ghost predicate BlocksWithin(cache: seq<Bytes>, blockSize: nat) {
    forall k :: 0 <= k < |cache| ==> |cache[k]| <= blockSize
  }

  ghost predicate WorkWithin(item: Work, blockSize: nat, reach: nat) {
    match item
    case Emit(m) => MessageWithin(m, blockSize, reach)
    case Forward(d) => DeltaWithin(d, blockSize, reach)
    case OpenWriter(_, cache, _) => BlocksWithin(cache, blockSize)
    case _ => true
  }

  ghost predicate WriterWithin(writer: WriterTask, blockSize: nat) {
    match writer
    case Spawned(_, cache, _) => BlocksWithin(cache, blockSize)
    case Writing(_, cache, _) => BlocksWithin(cache, blockSize)
    case _ => true
  }

  ghost predicate MessagesWithin(ms: seq<Payload>, blockSize: nat, reach: nat) {
    forall k :: 0 <= k < |ms| ==> MessageWithin(ms[k], blockSize, reach)
  }

  ghost predicate SideWithin(s: Side, blockSize: nat, reach: nat) {
    && (forall k :: 0 <= k < |s.work| ==> WorkWithin(s.work[k], blockSize, reach))
    && (forall k :: 0 <= k < |s.queue.sent| ==> DeltaWithin(s.queue.sent[k], blockSize, reach))
    && WriterWithin(s.writer, blockSize)
  }

  ghost predicate LocalWithin(l: Local, blockSize: nat, reach: nat) {
    && FilesWithin(l.files, reach) && SideWithin(l.side, blockSize, reach)
    && MessagesWithin(l.inbox.sent, blockSize, reach) && MessagesWithin(l.outbox.sent, blockSize, reach)
  }

  ghost predicate SessionWithin(s: State, blockSize: nat, reach: nat) {
    && SideWithin(s.client, blockSize, reach) && SideWithin(s.server, blockSize, reach)
    && MessagesWithin(s.up.sent, blockSize, reach) && MessagesWithin(s.down.sent, blockSize, reach)
  }

  lemma SideReachesFurther(s: Side, blockSize: nat, reach: nat, further: nat)
    requires SideWithin(s, blockSize, reach) && reach <= further
    ensures SideWithin(s, blockSize, further)
  {
    forall k | 0 <= k < |s.work| ensures WorkWithin(s.work[k], blockSize, further) {
      assert WorkWithin(s.work[k], blockSize, reach);
    }
    forall k | 0 <= k < |s.queue.sent| ensures DeltaWithin(s.queue.sent[k], blockSize, further) {
      assert DeltaWithin(s.queue.sent[k], blockSize, reach);
    }
  }

  lemma MessagesReachFurther(ms: seq<Payload>, blockSize: nat, reach: nat, further: nat)
    requires MessagesWithin(ms, blockSize, reach) && reach <= further
    ensures MessagesWithin(ms, blockSize, further)
  {
    forall k | 0 <= k < |ms| ensures MessageWithin(ms[k], blockSize, further) {
      assert MessageWithin(ms[k], blockSize, reach);
    }
  }

  lemma {:induction false} ScanStaysWithin(m: Matcher, data: Bytes, size: nat, start: nat, i: nat, blockSize: nat)
    requires size > 0 && start <= i <= |data|
    ensures forall d :: d in Scan(m, data, size, start, i) ==> DeltaWithin(d, blockSize, |data| + blockSize)
    decreases |data| - i
  {
    hide Matcher.Find;
    if i + size <= |data| && m.Find(data[i..i + size]).Some? {
      ScanStaysWithin(m, data, size, i + size, i + size, blockSize);
    } else if i < |data| && i + 1 - start >= MAX_LITERAL_CHUNK_SIZE {
      ScanStaysWithin(m, data, size, i + 1, i + 1, blockSize);
    } else if i < |data| {
      ScanStaysWithin(m, data, size, start, i + 1, blockSize);
    }
  }

  lemma AnswerStaysWithin(h: Hashes, s: BlockSignatures, data: Bytes, blockSize: nat, reach: nat)
    requires s.blockSize > 0 && |data| <= reach
    ensures var work := Emits(DeltaPayloads(Deltas(h, s, data)) + [Complete]);
      forall k :: 0 <= k < |work| ==> WorkWithin(work[k], blockSize, reach + blockSize)
  {
    ScanStaysWithin(BySignature(h, s), data, s.blockSize, 0, 0, blockSize);
    var ds := Deltas(h, s, data);
    var work := Emits(DeltaPayloads(ds) + [Complete]);
    hide Deltas;
    forall k | 0 <= k < |work| ensures WorkWithin(work[k], blockSize, reach + blockSize) {
      if k < |ds| {
        assert ds[k] in ds && work[k] == Emit(DeltaPayload(ds[k]));
      }
    }
  }

  lemma WorkStaysWithin(h: Hashes, size: nat, l: Local, l': Local, blockSize: nat, reach: nat)
    requires 0 < size <= blockSize && LocalWithin(l, blockSize, reach) && WorkStep(h, size, l, l')
    ensures LocalWithin(l', blockSize, reach)
  {
    hide SignAll, FilesWithin;
    assert WorkWithin(l.side.work[0], blockSize, reach);
    assert BlocksWithin(FileBlocks(l.files, l.side.filePath, size), blockSize);
    hide FileBlocks, BlocksWithin, DeltaWithin;
  }

  lemma ReceiveStaysWithin(h: Hashes, size: nat, l: Local, l': Local, blockSize: nat, reach: nat)
    requires 0 < size <= blockSize && LocalWithin(l, blockSize, reach) && ReceiveStep(h, size, l, l')
    ensures LocalWithin(l', blockSize, reach + if l.inbox.sent[l.inbox.taken].Signatures? then blockSize else 0)
  {
    var m := l.inbox.sent[l.inbox.taken];
    assert MessageWithin(m, blockSize, reach);
    if m.Signatures? {
      SideReachesFurther(l.side, blockSize, reach, reach + blockSize);
      MessagesReachFurther(l.inbox.sent, blockSize, reach, reach + blockSize);
      MessagesReachFurther(l.outbox.sent, blockSize, reach, reach + blockSize);
      if m.signatures.blockSize > 0 && l.side.filePath in l.files {
        AnswerStaysWithin(h, m.signatures, l.files[l.side.filePath].content, blockSize, reach);
      }
      hide DeltaWithin, WorkWithin, MessagesWithin, WriterWithin, Deltas, Emits;
    } else {
      hide FilesWithin, MessagesWithin, SignAll;
      assert m.Action? ==> BlocksWithin(FileBlocks(l.files, m.action.path, size), blockSize);
      hide FileBlocks, BlocksWithin;
    }
  }

  lemma OtherStepsStayWithin(l: Local, l': Local, blockSize: nat, reach: nat)
    requires LocalWithin(l, blockSize, reach) && (AbortStep(l, l') || WriterStep(l, l'))
    ensures LocalWithin(l', blockSize, reach)
  {
    if WriterStep(l, l') && l.side.writer.Writing? && !l.side.queue.Empty() {
      assert DeltaWithin(l.side.queue.sent[l.side.queue.taken], blockSize, reach);
      hide MessagesWithin, WriteAt, TempPath;
    } else {
      hide MessagesWithin, DeltaWithin, BlocksWithin, TempPath;
    }
  }

  // ---------- One step of a session ----------

  lemma LocalBurns(u: Measure, h: Hashes, size: nat, l: Local, l': Local, longest: nat)
    requires size > 0 && LocalStep(h, size, l, l')
    requires FilesWithin(l.files, longest) && (u.Steps? ==> u.deltas >= 2 * longest + 1)
    ensures OfLocal(u, l') <= OfLocal(u, l) && (u.Steps? ==> OfLocal(u, l') < OfLocal(u, l))
  {
    hide WorkStep, ReceiveStep, AbortStep, WriterStep, OfLocal, FilesWithin;
    if WorkStep(h, size, l, l') {
      WorkBurns(u, h, size, l, l');
    } else if ReceiveStep(h, size, l, l') {
      ReceiveBurns(u, h, size, l, l', longest);
    } else {
      OtherStepsBurn(u, l, l');
    }
  }

  /** A step lets files and deltas reach further only by giving an answer, and then by no
      more than a block. */
  lemma LocalStaysWithin(h: Hashes, size: nat, l: Local, l': Local, blockSize: nat, reach: nat)
    requires 0 < size <= blockSize && LocalWithin(l, blockSize, reach) && LocalStep(h, size, l, l')
    ensures OfLocal(Answers, l') <= OfLocal(Answers, l)
    ensures (OfLocal(Answers, l') < OfLocal(Answers, l) && LocalWithin(l', blockSize, reach + blockSize))
         || LocalWithin(l', blockSize, reach)
  {
    assert FilesWithin(l.files, reach);
    LocalBurns(Answers, h, size, l, l', reach);
    hide WorkStep, AbortStep, WriterStep, OfLocal, LocalWithin;
    if WorkStep(h, size, l, l') {
      WorkStaysWithin(h, size, l, l', blockSize, reach);
    } else if ReceiveStep(h, size, l, l') {
      ReceiveBurns(Answers, h, size, l, l', reach);
      ReceiveStaysWithin(h, size, l, l', blockSize, reach);
    } else {
      OtherStepsStayWithin(l, l', blockSize, reach);
    }
  }

  /** The step of one side, as what it does to the whole session. */
  lemma SessionBurns(u: Measure, c: Session, x: Config, y: Config, longest: nat)
    requires c.clientBlockSize > 0 && c.serverBlockSize > 0 && Next(c, x, y)
    requires FilesWithin(x.clientFiles, longest) && FilesWithin(x.serverFiles, longest)
    requires u.Steps? ==> u.deltas >= 2 * longest + 1
    ensures OfSession(u, y.state) <= OfSession(u, x.state)
    ensures u.Steps? ==> OfSession(u, y.state) < OfSession(u, x.state)
  {
    hide LocalStep, FilesWithin, OfSide, MessageSum;
    if y.serverFiles == x.serverFiles && ClientStep(c, x.clientFiles, x.state, y.clientFiles, y.state) {
      LocalBurns(u, c.h, c.clientBlockSize, ClientLocal(x.clientFiles, x.state), ClientLocal(y.clientFiles, y.state), longest);
    } else {
      LocalBurns(u, c.h, c.serverBlockSize, ServerLocal(x.serverFiles, x.state), ServerLocal(y.serverFiles, y.state), longest);
    }
  }

  ghost predicate ConfigWithin(x: Config, blockSize: nat, reach: nat) {
    && FilesWithin(x.clientFiles, reach) && FilesWithin(x.serverFiles, reach)
    && SessionWithin(x.state, blockSize, reach)
  }

  lemma FilesReachFurther(files: Files, reach: nat, further: nat)
    requires FilesWithin(files, reach) && reach <= further
    ensures FilesWithin(files, further)
  {
  }

  lemma SessionStaysWithin(c: Session, x: Config, y: Config, blockSize: nat, reach: nat)
    requires 0 < c.clientBlockSize <= blockSize && 0 < c.serverBlockSize <= blockSize && Next(c, x, y)
    requires ConfigWithin(x, blockSize, reach)
    ensures OfSession(Answers, y.state) <= OfSession(Answers, x.state)
    ensures (OfSession(Answers, y.state) < OfSession(Answers, x.state) && ConfigWithin(y, blockSize, reach + blockSize))
         || ConfigWithin(y, blockSize, reach)
  {
    hide LocalStep, FilesWithin, OfSide, MessageSum, SideWithin, MessagesWithin;
    FilesReachFurther(x.clientFiles, reach, reach + blockSize);
    FilesReachFurther(x.serverFiles, reach, reach + blockSize);
    if y.serverFiles == x.serverFiles && ClientStep(c, x.clientFiles, x.state, y.clientFiles, y.state) {
      SideReachesFurther(x.state.server, blockSize, reach, reach + blockSize);
      LocalStaysWithin(c.h, c.clientBlockSize, ClientLocal(x.clientFiles, x.state), ClientLocal(y.clientFiles, y.state),
                       blockSize, reach);
    } else {
      SideReachesFurther(x.state.client, blockSize, reach, reach + blockSize);
      LocalStaysWithin(c.h, c.serverBlockSize, ServerLocal(x.serverFiles, x.state), ServerLocal(y.serverFiles, y.state),
                       blockSize, reach);
    }
  }

  // ---------- All sessions ----------

  function SessionsSum(u: Measure, sessions: seq<State>, n: nat): nat
    requires n <= |sessions|
  {
    if n == 0 then 0 else SessionsSum(u, sessions, n - 1) + OfSession(u, sessions[n - 1])
  }

  lemma {:induction false} OneChanges(u: Measure, x: seq<State>, y: seq<State>, i: nat, n: nat)
    requires i < |x| == |y| && n <= |x| && y == x[i := y[i]]
    ensures SessionsSum(u, y, n) - SessionsSum(u, x, n) == if i < n then OfSession(u, y[i]) - OfSession(u, x[i]) else 0
  {
    hide OfSession;
    if n > 0 { OneChanges(u, x, y, i, n - 1); }
  }

  function BlockSize(job: Job): nat {
    if job.clientBlockSize < job.serverBlockSize then job.serverBlockSize else job.clientBlockSize
  }

  ghost predicate WorldWithin(w: World, blockSize: nat, reach: nat) {
    && FilesWithin(w.clientFiles, reach) && FilesWithin(w.serverFiles, reach)
    && forall i :: 0 <= i < |w.sessions| ==> SessionWithin(w.sessions[i], blockSize, reach)
  }

  lemma SessionReachesFurther(s: State, blockSize: nat, reach: nat, further: nat)
    requires SessionWithin(s, blockSize, reach) && reach <= further
    ensures SessionWithin(s, blockSize, further)
  {
    SideReachesFurther(s.client, blockSize, reach, further);
    SideReachesFurther(s.server, blockSize, reach, further);
    MessagesReachFurther(s.up.sent, blockSize, reach, further);
    MessagesReachFurther(s.down.sent, blockSize, reach, further);
  }

  /** The starts and steps left to an execution when an answer has at most `deltas` deltas. */
  function Fuel(job: Job, w: World, deltas: nat): nat {
    (if w.started <= |job.plan| then |job.plan| - w.started else 0)
    + SessionsSum(Steps(deltas), w.sessions, |w.sessions|)
  }

  lemma WorldBurns(job: Job, w: World, w': World, longest: nat, deltas: nat)
    requires job.clientBlockSize > 0 && job.serverBlockSize > 0 && WorldStep(job, w, w')
    requires FilesWithin(w.clientFiles, longest) && FilesWithin(w.serverFiles, longest)
    requires deltas >= 2 * longest + 1
    ensures Fuel(job, w', deltas) < Fuel(job, w, deltas)
  {
    hide SessionStep, OfSession, SessionsSum, FilesWithin, InFlight;
    if !StartStep(job, w, w') {
      var i: nat :| MoveStep(job, w, i, w');
      SessionBurns(Steps(deltas), job.SessionAt(i), Config(w.clientFiles, w.serverFiles, w.sessions[i]),
                   Config(w'.clientFiles, w'.serverFiles, w'.sessions[i]), longest);
      OneChanges(Steps(deltas), w.sessions, w'.sessions, i, |w.sessions|);
    }
  }

  lemma WorldStaysWithin(job: Job, w: World, w': World, reach: nat)
    requires job.clientBlockSize > 0 && job.serverBlockSize > 0 && WorldStep(job, w, w')
    requires WorldWithin(w, BlockSize(job), reach)
    ensures var before, after := SessionsSum(Answers, w.sessions, |w.sessions|), SessionsSum(Answers, w'.sessions, |w'.sessions|);
      && after <= before
      && (WorldWithin(w', BlockSize(job), reach) || (after < before && WorldWithin(w', BlockSize(job), reach + BlockSize(job))))
  {
    hide SessionStep, OfSession, SessionsSum, FilesWithin, InFlight, SessionWithin;
    if !StartStep(job, w, w') {
      var i: nat :| MoveStep(job, w, i, w');
      var further := reach + BlockSize(job);
      SessionStaysWithin(job.SessionAt(i), Config(w.clientFiles, w.serverFiles, w.sessions[i]),
                         Config(w'.clientFiles, w'.serverFiles, w'.sessions[i]), BlockSize(job), reach);
      OneChanges(Answers, w.sessions, w'.sessions, i, |w.sessions|);
      forall j | 0 <= j < |w.sessions| ensures SessionWithin(w.sessions[j], BlockSize(job), further) {
        SessionReachesFurther(w.sessions[j], BlockSize(job), reach, further);
      }
    }
  }

  // ---------- Whole executions ----------

  /** How far any file and delta can ever reach: each session adds at most one block to the
      longest file. */
  function Reach(job: Job, longest: nat): nat { longest + BlockSize(job) * |job.plan| }

  function MaxDeltas(job: Job, longest: nat): nat { 2 * Reach(job, longest) + 1 }

  /** The number of steps of any execution over files of at most this length. */
  function StepBound(job: Job, longest: nat): nat {
    StepsOf(|job.plan|, MaxDeltas(job, longest))
  }

  /** The steps of `n` sessions that answer with at most `deltas` deltas, and their starts. */
  function StepsOf(n: nat, deltas: nat): nat { n * (4 * deltas + 20) + n }

  lemma InitialSum(u: Measure, a: FileAction)
    ensures OfSession(u, InitialState(a)) <= if u.Answers? then 1 else 4 * u.deltas + 20
  {
    var work := ClientProgram(a);
    assert WorkSum(u, []) == 0 && MessageSum(u, []) == 0;
    if a.direction.Download? {
      assert WorkSum(u, work[2..]) == OfWork(u, work[2]) + WorkSum(u, work[3..]);
      assert WorkSum(u, work[1..]) == OfWork(u, work[1]) + WorkSum(u, work[2..]);
    }
    assert WorkSum(u, work) == OfWork(u, work[0]) + WorkSum(u, work[1..]);
  }

  lemma {:induction false} BeginSum(u: Measure, job: Job, n: nat)
    requires n <= |job.plan|
    ensures SessionsSum(u, Begin(job).sessions, n) <= n * if u.Answers? then 1 else 4 * u.deltas + 20
  {
    hide OfSession;
    if n > 0 {
      BeginSum(u, job, n - 1);
      InitialSum(u, job.plan[n - 1]);
    }
  }

  lemma BeginWithin(job: Job, longest: nat)
    requires FilesWithin(job.clientFiles, longest) && FilesWithin(job.serverFiles, longest)
    ensures WorldWithin(Begin(job), BlockSize(job), longest)
  {
  }

  /** The room left to grow and the answers still to be given never exceed what they were. */
  lemma {:induction false} RunStaysWithin(job: Job, run: seq<World>, longest: nat, k: nat) returns (reach: nat)
    requires job.clientBlockSize > 0 && job.serverBlockSize > 0 && IsWorldRun(job, run) && k < |run|
    requires FilesWithin(job.clientFiles, longest) && FilesWithin(job.serverFiles, longest)
    ensures WorldWithin(run[k], BlockSize(job), reach)
    ensures reach + BlockSize(job) * SessionsSum(Answers, run[k].sessions, |run[k].sessions|) <= Reach(job, longest)
  {
    hide WorldStep, WorldWithin, SessionsSum, FilesWithin;
    if k == 0 {
      BeginWithin(job, longest);
      BeginSum(Answers, job, |job.plan|);
      reach := longest;
      Monotone(BlockSize(job), SessionsSum(Answers, run[0].sessions, |run[0].sessions|), |job.plan|);
    } else {
      reach := RunStaysWithin(job, run, longest, k - 1);
      var w, w' := run[k - 1], run[k];
      assert WorldStep(job, w, w');
      WorldStaysWithin(job, w, w', reach);
      var before, after := SessionsSum(Answers, w.sessions, |w.sessions|), SessionsSum(Answers, w'.sessions, |w'.sessions|);
      if WorldWithin(w', BlockSize(job), reach) {
        Monotone(BlockSize(job), after, before);
      } else {
        Monotone(BlockSize(job), after + 1, before);
        reach := reach + BlockSize(job);
      }
    }
  }

  lemma Monotone(b: nat, m: nat, n: nat)
    requires m <= n
    ensures b * m <= b * n
  {
  }

  lemma {:induction false} FuelCounts(job: Job, run: seq<World>, longest: nat, k: nat)
    requires job.clientBlockSize > 0 && job.serverBlockSize > 0 && IsWorldRun(job, run) && k < |run|
    requires FilesWithin(job.clientFiles, longest) && FilesWithin(job.serverFiles, longest)
    ensures Fuel(job, run[k], MaxDeltas(job, longest)) + k <= Fuel(job, run[0], MaxDeltas(job, longest))
  {
    hide WorldStep, Fuel, FilesWithin, SessionsSum, Reach;
    if k > 0 {
      FuelCounts(job, run, longest, k - 1);
      var reach := RunStaysWithin(job, run, longest, k - 1);
      var w := run[k - 1];
      assert WorldStep(job, w, run[k]);
      FilesReachFurther(w.clientFiles, reach, Reach(job, longest));
      FilesReachFurther(w.serverFiles, reach, Reach(job, longest));
      WorldBurns(job, w, run[k], Reach(job, longest), MaxDeltas(job, longest));
    }
  }

  /** Every execution of a plan is finite, however its sessions interleave or abort, whatever
      the hashes, and even where temporary files are in the way: it has at most so many steps. */
  lemma WorldRunsAreBounded(job: Job, run: seq<World>, longest: nat)
    requires job.clientBlockSize > 0 && job.serverBlockSize > 0 && IsWorldRun(job, run)
    requires FilesWithin(job.clientFiles, longest) && FilesWithin(job.serverFiles, longest)
    ensures |run| <= StepBound(job, longest) + 1
  {
    hide *;
    RunBegins(job, run);
    FuelCounts(job, run, longest, |run| - 1);
    BeginFuel(job, MaxDeltas(job, longest));
    StepBoundIs(job, longest);
  }

  lemma RunBegins(job: Job, run: seq<World>)
    requires job.clientBlockSize > 0 && job.serverBlockSize > 0 && IsWorldRun(job, run)
    ensures run[0] == Begin(job)
  {
    hide WorldStep;
  }

  lemma StepBoundIs(job: Job, longest: nat)
    ensures StepBound(job, longest) == StepsOf(|job.plan|, MaxDeltas(job, longest))
  {
    hide MaxDeltas, StepsOf;
  }

  lemma BeginFuel(job: Job, deltas: nat)
    ensures Fuel(job, Begin(job), deltas) <= StepsOf(|job.plan|, deltas)
  {
    BeginSum(Steps(deltas), job, |job.plan|);
    assert |Begin(job).sessions| == |job.plan| && Begin(job).started == 0;
    hide SessionsSum, InitialState, Begin;
  }

  lemma LongestExists(files: Files) returns (longest: nat)
    ensures FilesWithin(files, longest)
    decreases |files|
  {
    longest := 0;
    if p :| p in files {
      var rest := files - {p};
      assert rest.Keys == files.Keys - {p};
      longest := LongestExists(rest);
      if longest < |files[p].content| { longest := |files[p].content|; }
      forall q | q in files ensures |files[q].content| <= longest {
        if q != p { assert q in rest && rest[q] == files[q]; }
      }
    }
  }

  // ---------- Executions carried on ----------

  lemma {:induction false} CarryOnWithin(job: Job, run: seq<World>, longest: nat) returns (all: seq<World>)
    requires job.clientBlockSize > 0 && job.serverBlockSize > 0
    requires FilesWithin(job.clientFiles, longest) && FilesWithin(job.serverFiles, longest)
    requires IsWorldRun(job, run) && NoSessionAborted(run[|run| - 1])
    ensures IsWorldRun(job, all) && run <= all && Stuck(job, all[|all| - 1])
    decreases StepBound(job, longest) + 1 - |run|
  {
    hide IsWorldRun, WorldStep, NoSessionAborted, StepBound, FilesWithin;
    if Stuck(job, run[|run| - 1]) {
      all := run;
    } else {
      var w :| WorldStep(job, run[|run| - 1], w) && NoSessionAborted(w);
      ExtendWorldRun(job, run, w);
      WorldRunsAreBounded(job, run + [w], longest);
      all := CarryOnWithin(job, run + [w], longest);
    }
  }

  /** Every execution without an abort can be carried on until it is stuck. */
  lemma WorldCarryOn(job: Job, run: seq<World>) returns (all: seq<World>)
    requires job.clientBlockSize > 0 && job.serverBlockSize > 0
    requires IsWorldRun(job, run) && NoSessionAborted(run[|run| - 1])
    ensures IsWorldRun(job, all) && run <= all && Stuck(job, all[|all| - 1])
  {
    hide IsWorldRun, NoSessionAborted, FilesWithin, Stuck;
    var client := LongestExists(job.clientFiles);
    var server := LongestExists(job.serverFiles);
    FilesReachFurther(job.clientFiles, client, client + server);
    FilesReachFurther(job.serverFiles, server, client + server);
    all := CarryOnWithin(job, run, client + server);
  }

  /** So every plan has an execution that is stuck in the end. */
  lemma StuckRunExists(job: Job) returns (run: seq<World>)
    requires job.clientBlockSize > 0 && job.serverBlockSize > 0
    ensures IsWorldRun(job, run) && Stuck(job, run[|run| - 1])
  {
    hide WorldStep, Stuck;
    run := WorldCarryOn(job, [Begin(job)]);
  }
}
