/** The protobuf messages of proto/harmonic.proto and the sink they are sent on. */
module Messages {
  import opened Common
  import opened Word

  /** A relative path, as its components. */
  type Path = seq<string>

  datatype Timestamp = Timestamp(seconds: int, nanos: int) {
    /** `proto_timestamp_gt`: the pair comparison of src/sync/state.rs. */
    predicate Newer(that: Timestamp) {
      seconds > that.seconds || (seconds == that.seconds && nanos > that.nanos)
    }
  }

  const EPOCH := Timestamp(0, 0)

  datatype Direction = Skip | Download | Upload

  datatype FileAction = FileAction(path: Path, direction: Direction, latestModified: Option<Timestamp>)

  datatype BlockSignature = BlockSignature(weak: Word, strong: Bytes)

  datatype BlockSignatures = BlockSignatures(blockSize: nat, blocks: seq<BlockSignature>)

  datatype Instruction = BlockIndex(block: nat) | Literal(bytes: Bytes)

  datatype Delta = Delta(index: nat, instruction: Option<Instruction>)

  datatype Payload =
    | Action(action: FileAction)
    | Signatures(signatures: BlockSignatures)
    | DeltaPayload(delta: Delta)
    | Complete

  function DeltaPayloads(ds: seq<Delta>): seq<Payload> {
    seq(|ds|, i requires 0 <= i < |ds| => DeltaPayload(ds[i]))
  }

  lemma DeltaPayloadsConcat(a: seq<Delta>, b: seq<Delta>)
    ensures DeltaPayloads(a + b) == DeltaPayloads(a) + DeltaPayloads(b)
  {
  }

  /** Where a handler sends its messages, in order. */
  class Sink {
    var sent: seq<Payload>

    constructor ()
      ensures sent == []
    {
      sent := [];
    }

    method Send(m: Payload)
      modifies this
      ensures sent == old(sent) + [m]
    {
      sent := sent + [m];
    }
  }

  /** Timestamps are ordered as nanoseconds since the epoch, which is zero. */
  lemma NewerIsLater(a: Timestamp, b: Timestamp)
    requires 0 <= a.nanos < 1_000_000_000 && 0 <= b.nanos < 1_000_000_000
    ensures a.Newer(b) <==> a.seconds * 1_000_000_000 + a.nanos > b.seconds * 1_000_000_000 + b.nanos
    ensures EPOCH.seconds * 1_000_000_000 + EPOCH.nanos == 0 <= EPOCH.nanos < 1_000_000_000
  {
  }
}
