/** The delta scan of src/sync/transfer.rs and its specification. */
module DeltaScan {
  import opened Common
  import opened Word
  import opened Messages
  import opened Signatures
  import BuzHash

  const MAX_LITERAL_CHUNK_SIZE: nat := 4 * 1024 * 1024 - 64 * 1024

  const TWO_TO_THE_32: nat := 0x1_0000_0000

  // ---------- Which block a window matches ----------

  /** The last signature with these checksums, its index cut to 32 bits. A strong
      checksum that is not 32 bytes long never matches. */
  function LastSigned(blocks: seq<BlockSignature>, weak: Word, strong: Digest): (r: Option<nat>)
    ensures r.Some? ==> r.value < |blocks|
  {
    if blocks == [] then None
    else
      var n := |blocks| - 1;
      if blocks[n].weak == weak && blocks[n].strong == strong then Some(n % TWO_TO_THE_32)
      else LastSigned(blocks[..n], weak, strong)
  }

  predicate HasChecksums(b: BlockSignature, weak: Word, strong: Digest) {
    b.weak == weak && b.strong == strong
  }

  /** Which block that is: the last with both checksums, its index cut to 32 bits. */
  lemma {:induction false} LastSignedIs(blocks: seq<BlockSignature>, weak: Word, strong: Digest, k: nat)
    requires k < |blocks| && HasChecksums(blocks[k], weak, strong)
    requires forall l :: k < l < |blocks| ==> !HasChecksums(blocks[l], weak, strong)
    ensures LastSigned(blocks, weak, strong) == Some(k % 0x1_0000_0000)
    decreases |blocks|
  {
    var n := |blocks| - 1;
    if k < n {
      assert !HasChecksums(blocks[n], weak, strong);
      LastSignedIs(blocks[..n], weak, strong, k);
    }
  }

  lemma {:induction false} UnsignedIsNone(blocks: seq<BlockSignature>, weak: Word, strong: Digest)
    ensures LastSigned(blocks, weak, strong) == None <==>
      forall k :: 0 <= k < |blocks| ==> !HasChecksums(blocks[k], weak, strong)
    decreases |blocks|
  {
    if blocks != [] {
      var n := |blocks| - 1;
      UnsignedIsNone(blocks[..n], weak, strong);
      assert forall k :: 0 <= k < n ==> blocks[..n][k] == blocks[k];
    }
  }

  /** The last block with exactly this content. */
  function LastEqual(blocks: seq<Bytes>, window: Bytes): (r: Option<nat>)
    ensures r.None? ==> window !in blocks
    ensures r.Some? ==> r.value < |blocks| && blocks[r.value] == window && window !in blocks[r.value + 1..]
  {
    if blocks == [] then None
    else
      var n := |blocks| - 1;
      if blocks[n] == window then Some(n) else LastEqual(blocks[..n], window)
  }

  /** How a scan decides that a window is an old block: by both checksums, as the code
      does, or by comparing contents. */
  datatype Matcher =
    | BySignature(h: Hashes, signatures: BlockSignatures)
    | ByContent(blocks: seq<Bytes>)
  {
    function Find(window: Bytes): Option<nat> {
      match this
      case BySignature(h, s) => LastSigned(s.blocks, BuzHash.Weak(h.table, s.blockSize, window), h.strong(window))
      case ByContent(blocks) => LastEqual(blocks, window)
    }
  }

  // ---------- The deltas a greedy scan emits ----------

  function Reuse(i: nat, block: nat): Delta {
    Delta(i, Some(BlockIndex(block)))
  }

  function Run(data: Bytes, start: nat, end: nat): Delta
    requires start <= end <= |data|
  {
    Delta(start, Some(Literal(data[start..end])))
  }

  function Flush(data: Bytes, start: nat, end: nat): seq<Delta>
    requires start <= end <= |data|
  {
    if start < end then [Run(data, start, end)] else []
  }

  /** Greedy scan from `i` with the literal run `data[start..i]` pending: reuse a matching
      block, else add one byte to the run, cutting runs at the maximal chunk size. */
  function Scan(m: Matcher, data: Bytes, blockSize: nat, start: nat, i: nat): seq<Delta>
    requires blockSize > 0 && start <= i <= |data|
    decreases |data| - i
  {
    if i + blockSize <= |data| && m.Find(data[i..i + blockSize]).Some? then
      Flush(data, start, i) + [Reuse(i, m.Find(data[i..i + blockSize]).value)]
      + Scan(m, data, blockSize, i + blockSize, i + blockSize)
    else if i == |data| then Flush(data, start, i)
    else if i + 1 - start >= MAX_LITERAL_CHUNK_SIZE then
      [Run(data, start, i + 1)] + Scan(m, data, blockSize, i + 1, i + 1)
    else Scan(m, data, blockSize, start, i + 1)
  }

  /** What the sender answers to `signatures` for the file `data`. */
  function Deltas(h: Hashes, signatures: BlockSignatures, data: Bytes): seq<Delta>
    requires signatures.blockSize > 0
  {
    Scan(BySignature(h, signatures), data, signatures.blockSize, 0, 0)
  }

  // ---------- The imperative scan ----------

  type LookupTable = map<Word, map<Digest, nat>>

  function LookUp(table: LookupTable, weak: Word, strong: Digest): Option<nat> {
    if weak in table && strong in table[weak] then Some(table[weak][strong]) else None
  }

  ghost predicate Represents(table: LookupTable, blocks: seq<BlockSignature>) {
    forall weak, strong :: LookUp(table, weak, strong) == LastSigned(blocks, weak, strong)
  }

  /** The two-level hash map; a later block replaces an earlier one with equal checksums. */
  method BuildLookup(blocks: seq<BlockSignature>) returns (table: LookupTable)
    ensures Represents(table, blocks)
  {
    table := map[];
    var n := 0;
    while n < |blocks|
      invariant n <= |blocks|
      invariant forall weak, strong :: LookUp(table, weak, strong) == LastSigned(blocks[..n], weak, strong)
    {
      var b := blocks[n];
      ghost var before := table;
      if |b.strong| == 32 {
        var inner: map<Digest, nat> := if b.weak in table then table[b.weak] else map[];
        table := table[b.weak := inner[b.strong := n % TWO_TO_THE_32]];
      }
      assert blocks[..n + 1][..n] == blocks[..n];
      n := n + 1;
    }
    assert blocks[..n] == blocks;
  }

  /** A run cut into chunks of at most the maximal size. */
  function LiteralChunks(buffer: Bytes, start: nat): seq<Delta> {
    if buffer == [] then []
    else
      var n := if |buffer| <= MAX_LITERAL_CHUNK_SIZE then |buffer| else MAX_LITERAL_CHUNK_SIZE;
      [Delta(start, Some(Literal(buffer[..n])))] + LiteralChunks(buffer[n..], start + n)
  }

  /** Chunk `k` begins `k` times the maximal size, 4 MiB less 64 KiB, into the run, and all but
      the last have that size. */
  lemma {:induction false} LiteralChunksAre(buffer: Bytes, start: nat, k: nat)
    requires k < |LiteralChunks(buffer, start)|
    ensures var from := k * 4_128_768;
      && from < |buffer|
      && LiteralChunks(buffer, start)[k] ==
         Delta(start + from, Some(Literal(buffer[from..if |buffer| < from + 4_128_768 then |buffer| else from + 4_128_768])))
      && (k == |LiteralChunks(buffer, start)| - 1 <==> |buffer| <= from + 4_128_768)
    decreases k
  {
    var n := if |buffer| <= MAX_LITERAL_CHUNK_SIZE then |buffer| else MAX_LITERAL_CHUNK_SIZE;
    var rest := buffer[n..];
    if k > 0 {
      LiteralChunksAre(rest, start + n, k - 1);
      var from := (k - 1) * 4_128_768;
      var to := if |rest| < from + 4_128_768 then |rest| else from + 4_128_768;
      assert n == 4_128_768;
      assert rest[from..to] == buffer[n + from..n + to];
    } else {
      assert buffer[0..n] == buffer[..n];
    }
  }

  method SendLiteralChunks(tx: Sink, buffer: Bytes, start: nat)
    modifies tx
    ensures tx.sent == old(tx.sent) + DeltaPayloads(LiteralChunks(buffer, start))
  {
    var offset := 0;
    assert buffer[0..] == buffer;
    while offset < |buffer|
      invariant offset <= |buffer|
      invariant tx.sent + DeltaPayloads(LiteralChunks(buffer[offset..], start + offset))
             == old(tx.sent) + DeltaPayloads(LiteralChunks(buffer, start))
    {
      var n := if |buffer| - offset <= MAX_LITERAL_CHUNK_SIZE then |buffer| - offset else MAX_LITERAL_CHUNK_SIZE;
      var chunk := buffer[offset..offset + n];
      ghost var d, rest := Delta(start + offset, Some(Literal(chunk))), buffer[offset + n..];
      assert buffer[offset..][..n] == chunk && buffer[offset..][n..] == rest;
      DeltaPayloadsConcat([d], LiteralChunks(rest, start + offset + n));
      tx.Send(DeltaPayload(Delta(start + offset, Some(Literal(chunk)))));
      offset := offset + n;
    }
  }

  /** A pending run never exceeds the maximal size, so it is flushed as one chunk. */
  lemma FlushIsOneChunk(data: Bytes, start: nat, end: nat)
    requires start <= end <= |data| && end - start <= MAX_LITERAL_CHUNK_SIZE
    ensures LiteralChunks(data[start..end], start) == Flush(data, start, end)
  {
    var buffer := data[start..end];
    assert buffer[..|buffer|] == buffer;
    assert LiteralChunks(buffer[|buffer|..], end) == [];
  }

  /** The `n` bytes of `data` from `i` on. */
  function Window(data: Bytes, i: nat, n: nat): (w: Bytes)
    requires i + n <= |data|
    ensures |w| == n
  {
    data[i..i + n]
  }

  lemma WindowMoves(data: Bytes, i: nat, n: nat)
    requires i + n < |data|
    ensures Window(data, i, n) + [data[i + n]] == Window(data, i, n + 1)
    ensures n > 0 ==> Window(data, i, n)[1..] + [data[i + n]] == Window(data, i + 1, n)
    ensures Window(data, i, 0) == []
  {
  }

  /** `buffer` is the literal run that ends before `i`, and `bufferStart` its offset. */
  ghost predicate Pending(data: Bytes, buffer: Bytes, bufferStart: nat, i: nat) {
    && |buffer| <= i <= |data| && |buffer| <= MAX_LITERAL_CHUNK_SIZE
    && buffer == Window(data, i - |buffer|, |buffer|)
    && (buffer != [] ==> bufferStart == i - |buffer|)
  }

  /** Sends the pending run, if there is one. */
  method FlushBuffer(tx: Sink, buffer: Bytes, start: nat, ghost data: Bytes, ghost end: nat)
    requires Pending(data, buffer, start, end)
    modifies tx
    ensures tx.sent == old(tx.sent) + DeltaPayloads(Flush(data, end - |buffer|, end))
  {
    if buffer != [] {
      FlushIsOneChunk(data, start, end);
      SendLiteralChunks(tx, buffer, start);
    }
  }

  function FindAt(m: Matcher, data: Bytes, blockSize: nat, i: nat): Option<nat> {
    if i + blockSize <= |data| then m.Find(Window(data, i, blockSize)) else None
  }

  /** What one step of the scan sends before the rest. */
  lemma ScanStep(m: Matcher, data: Bytes, blockSize: nat, start: nat, i: nat)
    requires blockSize > 0 && start <= i <= |data|
    ensures DeltaPayloads([]) == []
    ensures var found := FindAt(m, data, blockSize, i);
      DeltaPayloads(Scan(m, data, blockSize, start, i)) ==
      if found.Some? then
        DeltaPayloads(Flush(data, start, i)) + [DeltaPayload(Reuse(i, found.value))]
        + DeltaPayloads(Scan(m, data, blockSize, i + blockSize, i + blockSize))
      else if i == |data| then DeltaPayloads(Flush(data, start, i))
      else if i + 1 - start >= MAX_LITERAL_CHUNK_SIZE then
        DeltaPayloads(Flush(data, start, i + 1)) + DeltaPayloads(Scan(m, data, blockSize, i + 1, i + 1))
      else DeltaPayloads(Scan(m, data, blockSize, start, i + 1))
  {
    if i + blockSize <= |data| && m.Find(data[i..i + blockSize]).Some? {
      var reuse := [Reuse(i, m.Find(data[i..i + blockSize]).value)];
      DeltaPayloadsConcat(Flush(data, start, i), reuse);
      DeltaPayloadsConcat(Flush(data, start, i) + reuse, Scan(m, data, blockSize, i + blockSize, i + blockSize));
    } else if i < |data| && i + 1 - start >= MAX_LITERAL_CHUNK_SIZE {
      DeltaPayloadsConcat([Run(data, start, i + 1)], Scan(m, data, blockSize, i + 1, i + 1));
    }
  }

  lemma ConcatAssociative<T>(s: seq<T>, a: seq<T>, b: seq<T>, c: seq<T>)
    ensures s + (a + b + c) == s + a + b + c
    ensures s + (b + c) == s + b + c
    ensures s + [] == s
  {
  }

  /** Between steps the hasher, whenever a whole window is left to look at, holds exactly
      that window and its hash; near the end of the data it may be stale. */
  ghost predicate Ready(hasher: BuzHash.BuzHash, h: Hashes, data: Bytes, blockSize: nat, i: nat)
    reads hasher
  {
    && hasher.table == h.table && hasher.windowSize == blockSize
    && (i + blockSize <= |data| ==> hasher.window == Window(data, i, blockSize) && hasher.Fresh())
  }

  method StartHasher(h: Hashes, data: Bytes, blockSize: nat) returns (hasher: BuzHash.BuzHash)
    ensures fresh(hasher) && Ready(hasher, h, data, blockSize, 0)
    ensures hasher.work == if blockSize <= |data| then blockSize else |data|
  {
    hasher := new BuzHash.BuzHash(h.table, blockSize);
    var firstWindow := if blockSize >= |data| then data else data[..blockSize];
    var _ := hasher.Compute(firstWindow);
    assert hasher.window == firstWindow;
  }

  /** The block, if any, that matches the window at `i`. The strong hash is computed only
      for a weak hash that occurs in the table. */
  method FindBlock(h: Hashes, signatures: BlockSignatures, table: LookupTable,
                   hasher: BuzHash.BuzHash, data: Bytes, i: nat) returns (found: Option<nat>)
    requires Ready(hasher, h, data, signatures.blockSize, i)
    requires Represents(table, signatures.blocks)
    ensures found == FindAt(BySignature(h, signatures), data, signatures.blockSize, i)
  {
    hide BuzHash.WindowHash, LastSigned;
    found := None;
    if i + signatures.blockSize <= |data| {
      var window := data[i..i + signatures.blockSize];
      assert BySignature(h, signatures).Find(window) == LookUp(table, hasher.hash, h.strong(window));
      if hasher.hash in table {
        var strong := h.strong(window);
        if strong in table[hasher.hash] {
          found := Some(table[hasher.hash][strong]);
        }
      }
    }
  }

  /** The branch of the loop that found a block. */
  method TakeBlock(h: Hashes, ghost m: Matcher, data: Bytes, blockSize: nat, hasher: BuzHash.BuzHash, tx: Sink,
                   buffer: Bytes, bufferStart: nat, i: nat, block: nat)
    requires blockSize > 0 && Pending(data, buffer, bufferStart, i)
    requires FindAt(m, data, blockSize, i) == Some(block)
    requires Ready(hasher, h, data, blockSize, i)
    modifies hasher, tx
    ensures i + blockSize <= |data| && Pending(data, [], bufferStart, i + blockSize)
    ensures tx.sent + DeltaPayloads(Scan(m, data, blockSize, i + blockSize, i + blockSize))
         == old(tx.sent) + DeltaPayloads(Scan(m, data, blockSize, i - |buffer|, i))
    ensures Ready(hasher, h, data, blockSize, i + blockSize)
    ensures hasher.work <= old(hasher.work) + blockSize
  {
    hide Scan, Flush, DeltaPayloads, BuzHash.WindowHash, Matcher.Find;
    ScanStep(m, data, blockSize, i - |buffer|, i);
    ConcatAssociative(tx.sent, DeltaPayloads(Flush(data, i - |buffer|, i)), [DeltaPayload(Reuse(i, block))],
                      DeltaPayloads(Scan(m, data, blockSize, i + blockSize, i + blockSize)));
    FlushBuffer(tx, buffer, bufferStart, data, i);
    tx.Send(DeltaPayload(Delta(i, Some(BlockIndex(block)))));
    if i + blockSize + blockSize <= |data| {
      var _ := hasher.Compute(data[i + blockSize..i + blockSize + blockSize]);
    }
  }

  /** The branch of the loop that adds a byte to the literal run. */
  method TakeByte(h: Hashes, ghost m: Matcher, data: Bytes, blockSize: nat, hasher: BuzHash.BuzHash, tx: Sink,
                  buffer: Bytes, bufferStart: nat, i: nat) returns (buffer': Bytes, bufferStart': nat)
    requires blockSize > 0 && i < |data| && |buffer| < MAX_LITERAL_CHUNK_SIZE
    requires Pending(data, buffer, bufferStart, i)
    requires FindAt(m, data, blockSize, i) == None
    requires Ready(hasher, h, data, blockSize, i)
    modifies hasher, tx
    ensures |buffer'| < MAX_LITERAL_CHUNK_SIZE && |buffer'| <= i + 1 && Pending(data, buffer', bufferStart', i + 1)
    ensures tx.sent + DeltaPayloads(Scan(m, data, blockSize, i + 1 - |buffer'|, i + 1))
         == old(tx.sent) + DeltaPayloads(Scan(m, data, blockSize, i - |buffer|, i))
    ensures Ready(hasher, h, data, blockSize, i + 1)
    ensures hasher.work <= old(hasher.work) + 1
  {
    hide Scan, Flush, DeltaPayloads, BuzHash.WindowHash, Matcher.Find;
    ScanStep(m, data, blockSize, i - |buffer|, i);
    ConcatAssociative(tx.sent, [], DeltaPayloads(Flush(data, i - |buffer|, i + 1)),
                      DeltaPayloads(Scan(m, data, blockSize, i + 1, i + 1)));
    WindowMoves(data, i - |buffer|, |buffer|);
    bufferStart' := if buffer == [] then i else bufferStart;
    buffer' := buffer + [data[i]];
    if |buffer'| >= MAX_LITERAL_CHUNK_SIZE {
      FlushBuffer(tx, buffer', bufferStart', data, i + 1);
      buffer' := [];
      bufferStart' := i + 1;
    }
    if i + 1 + blockSize <= |data| {
      WindowMoves(data, i, blockSize);
      var _ := hasher.Roll(data[i + 1 + blockSize - 1]);
    }
  }

  /** Where the loop stands: the run not yet sent, the hasher and the hashing done so far. */
  ghost predicate Scanning(h: Hashes, data: Bytes, blockSize: nat, hasher: BuzHash.BuzHash,
                           buffer: Bytes, bufferStart: nat, i: nat)
    reads hasher
  {
    && i <= |data| && |buffer| <= i && |buffer| < MAX_LITERAL_CHUNK_SIZE && Pending(data, buffer, bufferStart, i)
    && Ready(hasher, h, data, blockSize, i)
    && hasher.work <= i + if blockSize <= |data| then blockSize else |data|
  }

  /** What the loop has still to send when it stands at `i` with `pending` bytes unsent. */
  function Rest(h: Hashes, signatures: BlockSignatures, data: Bytes, pending: nat, i: nat): seq<Payload>
    requires signatures.blockSize > 0 && pending <= i <= |data|
  {
    DeltaPayloads(Scan(BySignature(h, signatures), data, signatures.blockSize, i - pending, i))
  }

  /** One round of the loop; at the end of the data there is no more to do. */
  method ScanRound(h: Hashes, signatures: BlockSignatures, table: LookupTable, hasher: BuzHash.BuzHash, data: Bytes,
                   tx: Sink, buffer: Bytes, bufferStart: nat, i: nat)
    returns (buffer': Bytes, bufferStart': nat, i': nat, more: bool)
    requires signatures.blockSize > 0 && Represents(table, signatures.blocks)
    requires Scanning(h, data, signatures.blockSize, hasher, buffer, bufferStart, i)
    modifies hasher, tx
    ensures Scanning(h, data, signatures.blockSize, hasher, buffer', bufferStart', i')
    ensures tx.sent + Rest(h, signatures, data, |buffer'|, i') == old(tx.sent) + Rest(h, signatures, data, |buffer|, i)
    ensures if more then i' > i else i' == |data|
  {
    hide Scan, Pending, Ready, FindAt, Represents, DeltaPayloads;
    ghost var m := BySignature(h, signatures);
    buffer', bufferStart', i', more := buffer, bufferStart, i, true;
    var found := FindBlock(h, signatures, table, hasher, data, i);
    if found.Some? {
      TakeBlock(h, m, data, signatures.blockSize, hasher, tx, buffer, bufferStart, i, found.value);
      buffer', i' := [], i + signatures.blockSize;
    } else if i < |data| {
      buffer', bufferStart' := TakeByte(h, m, data, signatures.blockSize, hasher, tx, buffer, bufferStart, i);
      i' := i + 1;
    } else {
      more := false;
    }
  }

  /** What follows the loop. */
  method FinishScan(h: Hashes, signatures: BlockSignatures, data: Bytes, tx: Sink, buffer: Bytes, bufferStart: nat)
    requires signatures.blockSize > 0 && Pending(data, buffer, bufferStart, |data|)
    modifies tx
    ensures |buffer| <= |data| && tx.sent == old(tx.sent) + Rest(h, signatures, data, |buffer|, |data|) + [Complete]
  {
    FlushBuffer(tx, buffer, bufferStart, data, |data|);
    tx.Send(Complete);
  }

  /** Sends the deltas that turn the signed file into `data`, then `Complete`. The work of
      the weak hash, bytes computed plus rolls, is at most one pass and one window. */
  method SendDeltas(h: Hashes, signatures: BlockSignatures, data: Bytes, tx: Sink) returns (ghost work: nat)
    requires signatures.blockSize > 0
    modifies tx
    ensures tx.sent == old(tx.sent) + DeltaPayloads(Deltas(h, signatures, data)) + [Complete]
    ensures work <= |data| + if signatures.blockSize <= |data| then signatures.blockSize else |data|
  {
    var table := BuildLookup(signatures.blocks);
    var hasher := StartHasher(h, data, signatures.blockSize);
    var buffer: Bytes, bufferStart: nat, i: nat := [], 0, 0;
    assert Rest(h, signatures, data, 0, 0) == DeltaPayloads(Deltas(h, signatures, data));
    hide Rest, Deltas, DeltaPayloads, Pending, Ready, Represents;
    while true
      invariant Scanning(h, data, signatures.blockSize, hasher, buffer, bufferStart, i)
      invariant tx.sent + Rest(h, signatures, data, |buffer|, i) == old(tx.sent) + DeltaPayloads(Deltas(h, signatures, data))
      decreases |data| - i
    {
      var more;
      buffer, bufferStart, i, more := ScanRound(h, signatures, table, hasher, data, tx, buffer, bufferStart, i);
      if !more { break; }
    }
    FinishScan(h, signatures, data, tx, buffer, bufferStart);
    work := hasher.work;
  }
}
