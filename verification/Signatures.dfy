/** Block signatures and the block cache of src/sync/state.rs. */
module Signatures {
  import opened Common
  import opened Messages
  import opened Word
  import BuzHash

  /** The two hash functions of the engine. `strong` stands for BLAKE3 and is left
      arbitrary: a theorem that needs it not to collide says so. */
  datatype Hashes = Hashes(table: BuzHash.Table, strong: Bytes -> Digest)

  /** The blocks of a file: whole ones, then a possibly shorter last one. */
  function Chunks(data: Bytes, blockSize: nat): (blocks: seq<Bytes>)
    requires blockSize > 0
    ensures forall k :: 0 <= k < |blocks| ==> 0 < |blocks[k]| <= blockSize
  {
    if data == [] then []
    else if |data| <= blockSize then [data]
    else [data[..blockSize]] + Chunks(data[blockSize..], blockSize)
  }

  function Sign(h: Hashes, blockSize: nat, block: Bytes): BlockSignature {
    BlockSignature(BuzHash.Weak(h.table, blockSize, block), h.strong(block))
  }

  function SignAll(h: Hashes, blockSize: nat, blocks: seq<Bytes>): BlockSignatures {
    BlockSignatures(blockSize, seq(|blocks|, k requires 0 <= k < |blocks| => Sign(h, blockSize, blocks[k])))
  }

  lemma ChunksStep(data: Bytes, blockSize: nat, offset: nat, end: nat)
    requires blockSize > 0 && offset < |data|
    requires end == if offset + blockSize <= |data| then offset + blockSize else |data|
    ensures Chunks(data[offset..], blockSize) == [data[offset..end]] + Chunks(data[end..], blockSize)
  {
    var rest := data[offset..];
    if |rest| > blockSize {
      assert rest[..blockSize] == data[offset..end] && rest[blockSize..] == data[end..];
    } else {
      assert rest == data[offset..end] && data[end..] == [];
    }
  }

  /** One round of the signing loop: the block that begins at `offset`, and where it ends. */
  method SignBlock(h: Hashes, data: Bytes, blockSize: nat, hasher: BuzHash.BuzHash, offset: nat)
    returns (c: Bytes, signature: BlockSignature, end: nat)
    requires blockSize > 0 && offset < |data| && hasher.table == h.table && hasher.windowSize == blockSize
    modifies hasher
    ensures offset < end <= |data| && signature == Sign(h, blockSize, c)
    ensures Chunks(data[offset..], blockSize) == [c] + Chunks(data[end..], blockSize)
  {
    hide BuzHash.Weak, Chunks;
    end := if offset + blockSize <= |data| then offset + blockSize else |data|;
    c := data[offset..end];
    ChunksStep(data, blockSize, offset, end);
    var weak := hasher.Compute(c);
    signature := BlockSignature(weak, h.strong(c));
  }

  /** Each block, a short last one included, has its polynomial and its digest as checksums. */
  lemma SignedBlocks(h: Hashes, data: Bytes, blockSize: nat)
    requires blockSize > 0
    ensures var blocks, signed := Chunks(data, blockSize), SignAll(h, blockSize, Chunks(data, blockSize));
      && signed.blockSize == blockSize && |signed.blocks| == |blocks|
      && forall k :: 0 <= k < |blocks| ==>
           && |blocks[k]| <= blockSize
           && signed.blocks[k].weak == Rotate(BuzHash.Horner(h.table, blocks[k]), blockSize - |blocks[k]|)
           && signed.blocks[k].strong == h.strong(blocks[k])
  {
    var blocks, signed := Chunks(data, blockSize), SignAll(h, blockSize, Chunks(data, blockSize));
    hide Chunks, BuzHash.Weak, BuzHash.Horner, Rotate;
    forall k | 0 <= k < |blocks|
      ensures signed.blocks[k].weak == Rotate(BuzHash.Horner(h.table, blocks[k]), blockSize - |blocks[k]|)
    {
      BuzHash.WeakIsHorner(h.table, blockSize, blocks[k]);
    }
  }

  lemma SignAllGrows(h: Hashes, blockSize: nat, blocks: seq<Bytes>, c: Bytes)
    ensures SignAll(h, blockSize, []) == BlockSignatures(blockSize, [])
    ensures SignAll(h, blockSize, blocks + [c])
         == BlockSignatures(blockSize, SignAll(h, blockSize, blocks).blocks + [Sign(h, blockSize, c)])
  {
    hide BuzHash.Weak, Sign;
  }

  /** Signs the old file; a missing file is read as empty. */
  method GenerateBlocksSignatures(h: Hashes, oldFile: Option<Bytes>, blockSize: nat)
    returns (signatures: BlockSignatures, cache: seq<Bytes>)
    requires blockSize > 0
    ensures cache == Chunks(oldFile.GetOr([]), blockSize)
    ensures signatures == SignAll(h, blockSize, cache)
    ensures signatures.blockSize == blockSize && |signatures.blocks| == |cache|
    ensures forall k :: 0 <= k < |cache| ==>
      && |cache[k]| <= blockSize
      && signatures.blocks[k].weak == Rotate(BuzHash.Horner(h.table, cache[k]), blockSize - |cache[k]|)
      && signatures.blocks[k].strong == h.strong(cache[k])
  {
    var data := oldFile.GetOr([]);
    var hasher := new BuzHash.BuzHash(h.table, blockSize);
    var bs: seq<BlockSignature> := [];
    cache := [];
    var offset := 0;
    assert data[0..] == data;
    assert Chunks([], blockSize) == [];
    hide BuzHash.Weak, Chunks, Sign, SignAll;
    SignAllGrows(h, blockSize, [], []);
    while offset < |data|
      invariant offset <= |data|
      invariant cache + Chunks(data[offset..], blockSize) == Chunks(data, blockSize)
      invariant BlockSignatures(blockSize, bs) == SignAll(h, blockSize, cache)
    {
      var c, signature, end := SignBlock(h, data, blockSize, hasher, offset);
      SignAllGrows(h, blockSize, cache, c);
      assert cache + ([c] + Chunks(data[end..], blockSize)) == (cache + [c]) + Chunks(data[end..], blockSize);
      cache := cache + [c];
      bs := bs + [signature];
      offset := end;
    }
    signatures := BlockSignatures(blockSize, bs);
    SignedBlocks(h, oldFile.GetOr([]), blockSize);
  }

  function Concat(blocks: seq<Bytes>): Bytes {
    if blocks == [] then [] else blocks[0] + Concat(blocks[1..])
  }

  /** Nothing of the old file is lost or reordered, and only the last block may be short. */
  lemma {:induction false} ChunksPartition(data: Bytes, blockSize: nat)
    requires blockSize > 0
    ensures Concat(Chunks(data, blockSize)) == data
    ensures forall k :: 0 <= k < |Chunks(data, blockSize)| - 1 ==> |Chunks(data, blockSize)[k]| == blockSize
    decreases |data|
  {
    var blocks := Chunks(data, blockSize);
    if |data| > blockSize {
      ChunksPartition(data[blockSize..], blockSize);
      assert blocks[1..] == Chunks(data[blockSize..], blockSize);
      assert data == data[..blockSize] + data[blockSize..];
      forall k | 0 <= k < |blocks| - 1 ensures |blocks[k]| == blockSize {
        if k > 0 { assert blocks[k] == blocks[1..][k - 1]; }
      }
    } else if data != [] {
      assert blocks[1..] == [];
    }
  }
}
