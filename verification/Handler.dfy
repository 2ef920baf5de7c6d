/** The payload handler of src/sync/handler.rs, run by both sides of a session. */
module Handler {
  import opened Common
  import opened Messages
  import opened Signatures
  import opened DeltaScan
  import opened Writer

  /** What handling a payload makes an endpoint do next, in order. The two steps on the
      file occur only in the opening moves of a downloading client (src/bin/client.rs). */
  datatype Work =
    | Emit(message: Payload)
    | SendFileSignatures
    | OpenWriterOnFile(modified: Timestamp)
    | OpenWriter(path: Path, cache: seq<Bytes>, modified: Timestamp)
    | Forward(delta: Delta)
    | Finish

  datatype Response = Response(filePath: Path, work: seq<Work>) | Fails

  function Emits(ms: seq<Payload>): seq<Work> {
    seq(|ms|, i requires 0 <= i < |ms| => Emit(ms[i]))
  }

  function FileBlocks(files: Files, path: Path, blockSize: nat): seq<Bytes>
    requires blockSize > 0
  {
    Chunks(ContentOr(FileAt(files, path)), blockSize)
  }

  /** The handler as a function: the new file path and the work to do. Reading the source
      file fails when it is missing; a zero block size makes the scan panic. */
  function Respond(h: Hashes, blockSize: nat, files: Files, filePath: Path, writerOpen: bool, payload: Payload): Response
    requires blockSize > 0
  {
    match payload
    case Action(a) =>
      (match a.direction
       case Download => Response(a.path, [])
       case Upload =>
         var cache := FileBlocks(files, a.path, blockSize);
         Response(a.path, [Emit(Signatures(SignAll(h, blockSize, cache))),
                           OpenWriter(a.path, cache, a.latestModified.GetOr(EPOCH))])
       case Skip => Response(filePath, []))
    case Signatures(s) =>
      if s.blockSize > 0 && filePath in files then
        Response(filePath, Emits(DeltaPayloads(Deltas(h, s, files[filePath].content)) + [Complete]))
      else Fails
    case DeltaPayload(d) => Response(filePath, if writerOpen then [Forward(d)] else [])
    case Complete => Response(filePath, [Emit(Complete), Finish])
  }

  /** The messages among some work. */
  function Emitted(work: seq<Work>): seq<Payload> {
    if work == [] then []
    else (if work[0].Emit? then [work[0].message] else []) + Emitted(work[1..])
  }

  lemma {:induction false} EmittedEmits(ms: seq<Payload>)
    ensures Emitted(Emits(ms)) == ms
    decreases |ms|
  {
    if ms != [] {
      EmittedEmits(ms[1..]);
      assert Emits(ms)[1..] == Emits(ms[1..]);
    }
  }

  /** The sending half of a writer's channel, with what the writer was spawned on. */
  class WriterHandle {
    const path: Path
    const cache: seq<Bytes>
    const modified: Timestamp
    var received: seq<Delta>

    constructor (path: Path, cache: seq<Bytes>, modified: Timestamp)
      ensures this.path == path && this.cache == cache && this.modified == modified && received == []
    {
      this.path, this.cache, this.modified := path, cache, modified;
      received := [];
    }

    method Send(d: Delta)
      modifies this
      ensures received == old(received) + [d]
    {
      received := received + [d];
    }
  }

  datatype SyncStatus = Continue | Completed | Error

  /** The mutable state a side threads through its calls of the handler. */
  class Endpoint {
    var filePath: Path
    var writerTx: WriterHandle?

    constructor (filePath: Path)
      ensures this.filePath == filePath && writerTx == null
    {
      this.filePath := filePath;
      writerTx := null;
    }

    method HandleSyncPayload(h: Hashes, blockSize: nat, files: Files, payload: Payload, tx: Sink)
      returns (status: SyncStatus)
      requires blockSize > 0
      modifies this, tx, if writerTx == null then {} else {writerTx}
      ensures var response := Respond(h, blockSize, files, old(filePath), old(writerTx) != null, payload);
        match response
        case Fails => status == Error && tx.sent == old(tx.sent) && filePath == old(filePath)
        case Response(path, work) =>
          && filePath == path
          && tx.sent == old(tx.sent) + Emitted(work)
          && status == (if Finish in work then Completed else Continue)
      ensures filePath == if payload.Action? && !payload.action.direction.Skip? then payload.action.path else old(filePath)
      ensures status == match payload
        case Signatures(s) => if s.blockSize > 0 && old(filePath) in files then Continue else Error
        case Complete => Completed
        case _ => Continue
      ensures tx.sent == old(tx.sent) + match payload
        case Action(a) =>
          if a.direction.Upload? then [Signatures(SignAll(h, blockSize, FileBlocks(files, a.path, blockSize)))] else []
        case Signatures(s) =>
          if s.blockSize > 0 && old(filePath) in files then
            DeltaPayloads(Deltas(h, s, files[old(filePath)].content)) + [Complete]
          else []
        case DeltaPayload(_) => []
        case Complete => [Complete]
      ensures payload.Action? && payload.action.direction.Upload? ==>
        && writerTx != null && fresh(writerTx) && writerTx.received == []
        && writerTx.path == payload.action.path
        && writerTx.cache == FileBlocks(files, payload.action.path, blockSize)
        && writerTx.modified == payload.action.latestModified.GetOr(EPOCH)
      ensures !(payload.Action? && payload.action.direction.Upload?) ==> writerTx == old(writerTx)
      ensures old(writerTx) != null ==>
        old(writerTx).received == old(writerTx.received) + if payload.DeltaPayload? then [payload.delta] else []
    {
      RespondEmits(h, blockSize, files, filePath, writerTx != null, payload);
      hide Deltas, SignAll, FileBlocks, DeltaPayloads, Emitted;
      status := Continue;
      match payload {
        case Action(a) =>
          HandleAction(h, blockSize, files, a, tx);
        case Signatures(s) =>
          status := HandleSignatures(h, files, s, tx);
        case DeltaPayload(d) =>
          if writerTx != null {
            writerTx.Send(d);
          }
        case Complete =>
          tx.Send(Complete);
          status := Completed;
      }
    }

    /** A download is answered by the signatures that follow it; an upload is answered with
        the signatures of the old file, whose blocks the new writer keeps. */
    method HandleAction(h: Hashes, blockSize: nat, files: Files, a: FileAction, tx: Sink)
      requires blockSize > 0
      modifies this, tx
      ensures filePath == if a.direction.Skip? then old(filePath) else a.path
      ensures tx.sent == old(tx.sent) +
        if a.direction.Upload? then [Signatures(SignAll(h, blockSize, FileBlocks(files, a.path, blockSize)))] else []
      ensures a.direction.Upload? ==>
        && writerTx != null && fresh(writerTx) && writerTx.received == []
        && writerTx.path == a.path && writerTx.cache == FileBlocks(files, a.path, blockSize)
        && writerTx.modified == a.latestModified.GetOr(EPOCH)
      ensures !a.direction.Upload? ==> writerTx == old(writerTx)
    {
      match a.direction {
        case Download =>
          filePath := a.path;
        case Upload =>
          filePath := a.path;
          var present := if a.path in files then Some(files[a.path].content) else None;
          var signatures, cache := GenerateBlocksSignatures(h, present, blockSize);
          tx.Send(Signatures(signatures));
          writerTx := new WriterHandle(a.path, cache, a.latestModified.GetOr(EPOCH));
        case Skip =>
      }
    }

    /** Signatures are answered with the deltas of the file, unless it is missing. */
    method HandleSignatures(h: Hashes, files: Files, s: BlockSignatures, tx: Sink) returns (status: SyncStatus)
      modifies tx
      ensures status == if s.blockSize > 0 && filePath in files then Continue else Error
      ensures tx.sent == old(tx.sent) +
        if s.blockSize > 0 && filePath in files then DeltaPayloads(Deltas(h, s, files[filePath].content)) + [Complete] else []
    {
      if s.blockSize == 0 || filePath !in files {
        return Error;
      }
      status := Continue;
      hide Deltas, DeltaPayloads;
      var _ := SendDeltas(h, s, files[filePath].content, tx);
    }
  }

  /** What handling each payload emits. */
  lemma RespondEmits(h: Hashes, blockSize: nat, files: Files, filePath: Path, writerOpen: bool, payload: Payload)
    requires blockSize > 0
    ensures var response := Respond(h, blockSize, files, filePath, writerOpen, payload);
      response.Response? ==>
        && Emitted(response.work) == (match payload
             case Action(a) =>
               if a.direction.Upload? then [Signatures(SignAll(h, blockSize, FileBlocks(files, a.path, blockSize)))] else []
             case Signatures(s) => DeltaPayloads(Deltas(h, s, files[filePath].content)) + [Complete]
             case DeltaPayload(_) => []
             case Complete => [Complete])
        && (Finish in response.work <==> payload.Complete?)
  {
    hide Deltas, SignAll, FileBlocks, DeltaPayloads;
    match payload {
      case Signatures(s) =>
        if s.blockSize > 0 && filePath in files {
          EmittedEmits(DeltaPayloads(Deltas(h, s, files[filePath].content)) + [Complete]);
        }
      case Complete =>
        assert Emitted([Emit(Complete), Finish]) == [Complete] + Emitted([Finish]);
      case Action(a) =>
        var cache := FileBlocks(files, a.path, blockSize);
        var work := [Emit(Signatures(SignAll(h, blockSize, cache))), OpenWriter(a.path, cache, a.latestModified.GetOr(EPOCH))];
        assert Emitted(work[1..]) == [] && Emitted(work) == [Signatures(SignAll(h, blockSize, cache))];
      case DeltaPayload(d) =>
        assert Emitted([Forward(d)]) == [];
    }
  }
}
