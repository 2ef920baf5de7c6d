/** One session of src/bin/client.rs and src/bin/server.rs as a state machine: two endpoints
    that run the handler, two bounded channels, and a writer task on each side. */
module Protocol {
  import opened Common
  import opened Messages
  import opened Signatures
  import opened Writer
  import opened Handler

  const MESSAGE_CAPACITY: nat := 256
  const WRITER_CAPACITY: nat := 512

  /** A FIFO channel: everything ever sent and how much of it has been taken. */
  datatype Channel<T> = Channel(sent: seq<T>, taken: nat) {
    predicate Valid() { taken <= |sent| }
    predicate Empty() { taken >= |sent| }
    predicate HasRoom(capacity: nat) { |sent| - taken < capacity }
    function Push(m: T): Channel<T> { Channel(sent + [m], taken) }
    function Pop(): Channel<T> { Channel(sent, taken + 1) }
  }

  datatype Status = Running | Completed | Aborted

  datatype WriterTask =
    | Idle
    | Spawned(path: Path, cache: seq<Bytes>, modified: Timestamp)
    | Writing(path: Path, cache: seq<Bytes>, modified: Timestamp)
    | Done
    | Died

  /** One endpoint: the handler's state, the work its last message left to do, and the
      channel to its writer. */
  datatype Side = Side(filePath: Path, work: seq<Work>, status: Status,
                       queue: Channel<Delta>, writer: WriterTask)

  /** All an endpoint can read or change: its disk, itself, its incoming and outgoing channel. */
  datatype Local = Local(files: Files, side: Side, inbox: Channel<Payload>, outbox: Channel<Payload>)

  // ---------- Steps of one endpoint ----------

  /** The endpoint does the first item of its work. A full channel blocks it. */
  ghost predicate WorkStep(h: Hashes, blockSize: nat, l: Local, l': Local)
    requires blockSize > 0
  {
    && l.side.status == Running && l.side.work != []
    && var s := l.side.(work := l.side.work[1..]);
    match l.side.work[0]
    case Emit(m) =>
      l.outbox.HasRoom(MESSAGE_CAPACITY) && l' == l.(side := s, outbox := l.outbox.Push(m))
    case SendFileSignatures =>
      && l.outbox.HasRoom(MESSAGE_CAPACITY)
      && var signatures := SignAll(h, blockSize, FileBlocks(l.files, s.filePath, blockSize));
      l' == l.(side := s, outbox := l.outbox.Push(Signatures(signatures)))
    case OpenWriterOnFile(modified) =>
      && s.writer.Idle?
      && l' == l.(side := s.(writer := Spawned(s.filePath, FileBlocks(l.files, s.filePath, blockSize), modified)))
    case OpenWriter(path, cache, modified) =>
      s.writer.Idle? && l' == l.(side := s.(writer := Spawned(path, cache, modified)))
    case Forward(d) =>
      && s.queue.HasRoom(WRITER_CAPACITY) && !s.writer.Died?
      && l' == l.(side := s.(queue := s.queue.Push(d)))
    case Finish => l' == l.(side := s.(status := Status.Completed))
  }

  /** With nothing left to do, the endpoint takes its next message. */
  ghost predicate ReceiveStep(h: Hashes, blockSize: nat, l: Local, l': Local)
    requires blockSize > 0
  {
    && l.side.status == Running && l.side.work == [] && l.inbox.taken < |l.inbox.sent|
    && var response := Respond(h, blockSize, l.files, l.side.filePath, !l.side.writer.Idle?, l.inbox.sent[l.inbox.taken]);
    match response
    case Fails => l' == l.(inbox := l.inbox.Pop(), side := l.side.(status := Aborted))
    case Response(path, work) => l' == l.(inbox := l.inbox.Pop(), side := l.side.(filePath := path, work := work))
  }

  /** The stream breaks or ends early: the endpoint stops and drops its writer channel. */
  ghost predicate AbortStep(l: Local, l': Local) {
    l.side.status == Running && l' == l.(side := l.side.(status := Aborted, work := []))
  }

  /** The writer task creates its file, writes a delta, or, once its channel is closed and
      drained, renames the file over the target. */
  ghost predicate WriterStep(l: Local, l': Local) {
    match l.side.writer
    case Spawned(path, cache, modified) =>
      l' == l.(files := l.files[TempPath(path) := File([], EPOCH)], side := l.side.(writer := Writing(path, cache, modified)))
    case Writing(path, cache, modified) =>
      var temp := TempPath(path);
      && temp in l.files
      && if !l.side.queue.Empty() then
        var p := Apply(cache, Open(l.files[temp].content), l.side.queue.sent[l.side.queue.taken]);
        l' == l.(files := l.files[temp := File(p.content, EPOCH)],
                 side := l.side.(queue := l.side.queue.Pop(), writer := if p.Open? then l.side.writer else Died))
      else
        && l.side.status != Running
        && l' == l.(files := (l.files - {temp})[path := File(l.files[temp].content, modified)],
                    side := l.side.(writer := Done))
    case _ => false
  }

  ghost predicate LocalStep(h: Hashes, blockSize: nat, l: Local, l': Local)
    requires blockSize > 0
  {
    WorkStep(h, blockSize, l, l') || ReceiveStep(h, blockSize, l, l') || AbortStep(l, l') || WriterStep(l, l')
  }

  // ---------- A session ----------

  /** What a session is run on: the action, the block size each side is configured with,
      and the file each side holds at the path when the session begins. */
  datatype Session = Session(h: Hashes, action: FileAction, clientBlockSize: nat, serverBlockSize: nat,
                             clientFile: Option<File>, serverFile: Option<File>)

  datatype State = State(client: Side, server: Side, up: Channel<Payload>, down: Channel<Payload>)

  const NO_MESSAGES: Channel<Payload> := Channel([], 0)
  const NO_DELTAS: Channel<Delta> := Channel([], 0)

  /** The opening moves of `sync_file`. */
  function ClientProgram(action: FileAction): seq<Work> {
    [Emit(Action(action))]
    + if action.direction.Download? then [SendFileSignatures, OpenWriterOnFile(action.latestModified.GetOr(EPOCH))] else []
  }

  function InitialState(action: FileAction): State {
    State(Side(action.path, ClientProgram(action), Running, NO_DELTAS, Idle),
          Side([], [], Running, NO_DELTAS, Idle),
          NO_MESSAGES, NO_MESSAGES)
  }

  function ClientLocal(files: Files, s: State): Local { Local(files, s.client, s.down, s.up) }
  function ServerLocal(files: Files, s: State): Local { Local(files, s.server, s.up, s.down) }

  ghost predicate ClientStep(c: Session, files: Files, s: State, files': Files, s': State)
    requires c.clientBlockSize > 0
  {
    && s'.server == s.server
    && LocalStep(c.h, c.clientBlockSize, ClientLocal(files, s), ClientLocal(files', s'))
  }

  ghost predicate ServerStep(c: Session, files: Files, s: State, files': Files, s': State)
    requires c.serverBlockSize > 0
  {
    && s'.client == s.client
    && LocalStep(c.h, c.serverBlockSize, ServerLocal(files, s), ServerLocal(files', s'))
  }
}
