/** What the deltas of a scan mean: which old blocks they reuse and how they tile the data. */
module ScanProperties {
  import opened Common
  import opened Messages
  import opened Signatures
  import opened DeltaScan
  import BuzHash

  // ---------- The hashed scan refines the naive one ----------

  /** No old block shares both checksums with a window of the data it differs from. */
  ghost predicate NoCollision(h: Hashes, blocks: seq<Bytes>, data: Bytes, blockSize: nat) {
    forall k, i :: 0 <= k < |blocks| && 0 <= i && i + blockSize <= |data|
      && Sign(h, blockSize, blocks[k]) == Sign(h, blockSize, Window(data, i, blockSize))
      ==> blocks[k] == Window(data, i, blockSize)
  }

  /** For this it is enough that one of the two checksums tells each old block from each
      window that differs from it. */
  lemma OneChecksumSuffices(h: Hashes, blocks: seq<Bytes>, data: Bytes, blockSize: nat)
    requires forall k, i :: 0 <= k < |blocks| && 0 <= i && i + blockSize <= |data| ==>
      || h.strong(blocks[k]) != h.strong(Window(data, i, blockSize))
      || BuzHash.Weak(h.table, blockSize, blocks[k]) != BuzHash.Weak(h.table, blockSize, Window(data, i, blockSize))
      || blocks[k] == Window(data, i, blockSize)
    ensures NoCollision(h, blocks, data, blockSize)
  {
    hide BuzHash.Weak;
  }

  /** The greedy scan that compares contents and knows no hash. */
  function NaiveDeltas(blocks: seq<Bytes>, data: Bytes, blockSize: nat): seq<Delta>
    requires blockSize > 0
  {
    Scan(ByContent(blocks), data, blockSize, 0, 0)
  }

  lemma {:induction false} SignedIsEqual(h: Hashes, blockSize: nat, blocks: seq<Bytes>, w: Bytes)
    requires |blocks| <= TWO_TO_THE_32
    requires forall k :: 0 <= k < |blocks| && Sign(h, blockSize, blocks[k]) == Sign(h, blockSize, w) ==> blocks[k] == w
    ensures BySignature(h, SignAll(h, blockSize, blocks)).Find(w) == ByContent(blocks).Find(w)
    decreases |blocks|
  {
    hide BuzHash.Weak;
    if blocks != [] {
      var n, all := |blocks| - 1, SignAll(h, blockSize, blocks);
      SignedIsEqual(h, blockSize, blocks[..n], w);
      assert SignAll(h, blockSize, blocks[..n]).blocks == all.blocks[..n];
      assert all.blocks[n] == Sign(h, blockSize, blocks[n]);
      hide SignAll;
    }
  }

  lemma {:induction false} MatchersAgree(m: Matcher, m': Matcher, data: Bytes, blockSize: nat, start: nat, i: nat)
    requires blockSize > 0 && start <= i <= |data|
    requires forall j :: 0 <= j && j + blockSize <= |data| ==>
      m.Find(Window(data, j, blockSize)) == m'.Find(Window(data, j, blockSize))
    ensures Scan(m, data, blockSize, start, i) == Scan(m', data, blockSize, start, i)
    decreases |data| - i
  {
    hide Matcher.Find;
    if i + blockSize <= |data| {
      assert m.Find(Window(data, i, blockSize)) == m'.Find(Window(data, i, blockSize));
      MatchersAgree(m, m', data, blockSize, i + blockSize, i + blockSize);
    }
    if i < |data| {
      MatchersAgree(m, m', data, blockSize, i + 1, i + 1);
      MatchersAgree(m, m', data, blockSize, start, i + 1);
    }
  }

  /** With at most 2^32 blocks and no collision, the hash table, both checksums and the
      rolling window emit exactly the naive list, delta for delta. */
  lemma HashedScanIsNaive(h: Hashes, blocks: seq<Bytes>, data: Bytes, blockSize: nat)
    requires blockSize > 0 && |blocks| <= TWO_TO_THE_32 && NoCollision(h, blocks, data, blockSize)
    ensures Deltas(h, SignAll(h, blockSize, blocks), data) == NaiveDeltas(blocks, data, blockSize)
  {
    var m, m' := BySignature(h, SignAll(h, blockSize, blocks)), ByContent(blocks);
    forall j | 0 <= j && j + blockSize <= |data|
      ensures m.Find(Window(data, j, blockSize)) == m'.Find(Window(data, j, blockSize))
    {
      SignedIsEqual(h, blockSize, blocks, Window(data, j, blockSize));
    }
    MatchersAgree(m, m', data, blockSize, 0, 0);
  }

  // ---------- Tiling ----------

  /** The bytes a delta stands for. */
  function Written(cache: seq<Bytes>, d: Delta): Bytes {
    match d.instruction
    case Some(BlockIndex(k)) => if k < |cache| then cache[k] else []
    case Some(Literal(bytes)) => bytes
    case None => []
  }

  /** The writer can carry the delta out. */
  predicate Usable(cache: seq<Bytes>, d: Delta) {
    match d.instruction
    case Some(BlockIndex(k)) => k < |cache|
    case Some(Literal(_)) => true
    case None => false
  }

  /** The deltas cut `data[pos..]` into consecutive non-empty pieces, each with its offset. */
  ghost predicate Tiles(cache: seq<Bytes>, ds: seq<Delta>, data: Bytes, pos: nat) {
    if ds == [] then pos == |data|
    else
      var w := Written(cache, ds[0]);
      && ds[0].index == pos && w != [] && pos + |w| <= |data| && data[pos..pos + |w|] == w
      && Usable(cache, ds[0])
      && Tiles(cache, ds[1..], data, pos + |w|)
  }

  lemma TilesFlush(cache: seq<Bytes>, data: Bytes, start: nat, i: nat, rest: seq<Delta>)
    requires start <= i <= |data| && Tiles(cache, rest, data, i)
    ensures Tiles(cache, Flush(data, start, i) + rest, data, start)
  {
    var ds := Flush(data, start, i) + rest;
    if start < i {
      assert ds[1..] == rest;
    } else {
      assert ds == rest;
    }
  }

  lemma TilesReuse(cache: seq<Bytes>, data: Bytes, start: nat, i: nat, block: nat, rest: seq<Delta>)
    requires start <= i <= |data| && block < |cache| && cache[block] != []
    requires i + |cache[block]| <= |data| && data[i..i + |cache[block]|] == cache[block]
    requires Tiles(cache, rest, data, i + |cache[block]|)
    ensures Tiles(cache, Flush(data, start, i) + [Reuse(i, block)] + rest, data, start)
  {
    var reuse := [Reuse(i, block)];
    assert (reuse + rest)[1..] == rest;
    TilesFlush(cache, data, start, i, reuse + rest);
    assert Flush(data, start, i) + reuse + rest == Flush(data, start, i) + (reuse + rest);
  }

  lemma NaiveReuses(blocks: seq<Bytes>, data: Bytes, blockSize: nat, start: nat, i: nat, rest: seq<Delta>)
    requires blockSize > 0 && start <= i && i + blockSize <= |data| && Tiles(blocks, rest, data, i + blockSize)
    requires ByContent(blocks).Find(data[i..i + blockSize]).Some?
    ensures var block := ByContent(blocks).Find(data[i..i + blockSize]).value;
      Tiles(blocks, Flush(data, start, i) + [Reuse(i, block)] + rest, data, start)
  {
    hide Tiles, Flush, Reuse;
    var w := data[i..i + blockSize];
    var block := ByContent(blocks).Find(w).value;
    assert blocks[block] == w && |w| == blockSize;
    TilesReuse(blocks, data, start, i, block, rest);
  }

  lemma NaiveEndTiles(blocks: seq<Bytes>, data: Bytes, blockSize: nat, start: nat)
    requires blockSize > 0 && start <= |data|
    ensures Tiles(blocks, Scan(ByContent(blocks), data, blockSize, start, |data|), data, start)
  {
    assert Tiles(blocks, [], data, |data|);
    TilesFlush(blocks, data, start, |data|, []);
    assert Flush(data, start, |data|) + [] == Flush(data, start, |data|);
    hide Tiles;
  }

  lemma NaiveReuseTiles(blocks: seq<Bytes>, data: Bytes, blockSize: nat, start: nat, i: nat)
    requires blockSize > 0 && start <= i && i + blockSize <= |data|
    requires ByContent(blocks).Find(data[i..i + blockSize]).Some?
    requires Tiles(blocks, Scan(ByContent(blocks), data, blockSize, i + blockSize, i + blockSize), data, i + blockSize)
    ensures Tiles(blocks, Scan(ByContent(blocks), data, blockSize, start, i), data, start)
  {
    hide Tiles, Matcher.Find, Flush, Reuse;
    NaiveReuses(blocks, data, blockSize, start, i, Scan(ByContent(blocks), data, blockSize, i + blockSize, i + blockSize));
  }

  /** A full run is cut off. */
  lemma NaiveRunTiles(blocks: seq<Bytes>, data: Bytes, blockSize: nat, start: nat, i: nat)
    requires blockSize > 0 && start <= i < |data| && i + 1 - start >= MAX_LITERAL_CHUNK_SIZE
    requires i + blockSize <= |data| ==> ByContent(blocks).Find(data[i..i + blockSize]).None?
    requires Tiles(blocks, Scan(ByContent(blocks), data, blockSize, i + 1, i + 1), data, i + 1)
    ensures Tiles(blocks, Scan(ByContent(blocks), data, blockSize, start, i), data, start)
  {
    hide Tiles, Matcher.Find;
    TilesFlush(blocks, data, start, i + 1, Scan(ByContent(blocks), data, blockSize, i + 1, i + 1));
  }

  lemma NaiveByteTiles(blocks: seq<Bytes>, data: Bytes, blockSize: nat, start: nat, i: nat)
    requires blockSize > 0 && start <= i < |data| && i + 1 - start < MAX_LITERAL_CHUNK_SIZE
    requires i + blockSize <= |data| ==> ByContent(blocks).Find(data[i..i + blockSize]).None?
    requires Tiles(blocks, Scan(ByContent(blocks), data, blockSize, start, i + 1), data, start)
    ensures Tiles(blocks, Scan(ByContent(blocks), data, blockSize, start, i), data, start)
  {
    hide Tiles, Matcher.Find;
  }

  lemma {:induction false} NaiveScanTiles(blocks: seq<Bytes>, data: Bytes, blockSize: nat, start: nat, i: nat)
    requires blockSize > 0 && start <= i <= |data|
    ensures Tiles(blocks, Scan(ByContent(blocks), data, blockSize, start, i), data, start)
    decreases |data| - i
  {
    hide Tiles, Scan, Matcher.Find;
    if i + blockSize <= |data| && ByContent(blocks).Find(data[i..i + blockSize]).Some? {
      NaiveScanTiles(blocks, data, blockSize, i + blockSize, i + blockSize);
      NaiveReuseTiles(blocks, data, blockSize, start, i);
    } else if i == |data| {
      NaiveEndTiles(blocks, data, blockSize, start);
    } else if i + 1 - start >= MAX_LITERAL_CHUNK_SIZE {
      NaiveScanTiles(blocks, data, blockSize, i + 1, i + 1);
      NaiveRunTiles(blocks, data, blockSize, start, i);
    } else {
      NaiveScanTiles(blocks, data, blockSize, start, i + 1);
      NaiveByteTiles(blocks, data, blockSize, start, i);
    }
  }

  /** The number of bytes the first `k` deltas stand for. */
  function Boundary(cache: seq<Bytes>, ds: seq<Delta>, k: nat): nat
    requires k <= |ds|
  {
    if k == 0 then 0 else Boundary(cache, ds, k - 1) + |Written(cache, ds[k - 1])|
  }

  lemma {:induction false} BoundaryCons(cache: seq<Bytes>, ds: seq<Delta>, k: nat)
    requires 0 < k <= |ds|
    ensures Boundary(cache, ds, k) == |Written(cache, ds[0])| + Boundary(cache, ds[1..], k - 1)
  {
    if k > 1 {
      BoundaryCons(cache, ds, k - 1);
    }
  }

  /** Delta `k` starts where the lengths of those before it add up to, and the lengths of
      all of them add up to what is left of the data. */
  lemma {:induction false} TilesAt(cache: seq<Bytes>, ds: seq<Delta>, data: Bytes, pos: nat, k: nat)
    requires Tiles(cache, ds, data, pos) && k <= |ds|
    ensures pos + Boundary(cache, ds, k) <= |data|
    ensures k == |ds| ==> pos + Boundary(cache, ds, k) == |data|
    ensures k < |ds| ==>
      var b, w := pos + Boundary(cache, ds, k), Written(cache, ds[k]);
      && ds[k].index == b && w != [] && b + |w| <= |data| && data[b..b + |w|] == w
      && Usable(cache, ds[k])
    decreases k
  {
    hide Written, Usable;
    if k > 0 {
      var w := Written(cache, ds[0]);
      TilesAt(cache, ds[1..], data, pos + |w|, k - 1);
      BoundaryCons(cache, ds, k);
      assert k < |ds| ==> ds[1..][k - 1] == ds[k];
    }
  }

  /** The writer can carry out every delta the sender emits, whatever the hashes do: a block
      index, even cut to 32 bits, never exceeds the number of blocks. */
  lemma {:induction false} ScanUsable(h: Hashes, blocks: seq<Bytes>, data: Bytes, blockSize: nat, start: nat, i: nat)
    requires blockSize > 0 && start <= i <= |data|
    ensures forall d :: d in Scan(BySignature(h, SignAll(h, blockSize, blocks)), data, blockSize, start, i) ==>
      Usable(blocks, d)
    decreases |data| - i
  {
    hide LastSigned, BuzHash.Weak;
    var m := BySignature(h, SignAll(h, blockSize, blocks));
    if i + blockSize <= |data| && m.Find(data[i..i + blockSize]).Some? {
      ScanUsable(h, blocks, data, blockSize, i + blockSize, i + blockSize);
    } else if i < |data| && i + 1 - start >= MAX_LITERAL_CHUNK_SIZE {
      ScanUsable(h, blocks, data, blockSize, i + 1, i + 1);
    } else if i < |data| {
      ScanUsable(h, blocks, data, blockSize, start, i + 1);
    }
  }

  // ---------- Shape of the list ----------

  predicate IsLiteral(d: Delta) {
    d.instruction.Some? && d.instruction.value.Literal?
  }

  /** Literals hold 1 to MAX bytes and stand side by side only when the first is full;
      every reused block is a whole one. */
  ghost predicate WellCut(cache: seq<Bytes>, ds: seq<Delta>, blockSize: nat) {
    && (forall k :: 0 <= k < |ds| && IsLiteral(ds[k]) ==>
          0 < |ds[k].instruction.value.bytes| <= MAX_LITERAL_CHUNK_SIZE)
    && (forall k :: 0 <= k < |ds| - 1 && IsLiteral(ds[k]) && IsLiteral(ds[k + 1]) ==>
          |ds[k].instruction.value.bytes| == MAX_LITERAL_CHUNK_SIZE)
    && (forall k :: 0 <= k < |ds| && !IsLiteral(ds[k]) ==> |Written(cache, ds[k])| == blockSize)
  }

  lemma WellCutJoin(cache: seq<Bytes>, a: seq<Delta>, b: seq<Delta>, blockSize: nat)
    requires WellCut(cache, a, blockSize) && WellCut(cache, b, blockSize)
    requires a != [] && b != [] && IsLiteral(a[|a| - 1]) && IsLiteral(b[0]) ==>
      |a[|a| - 1].instruction.value.bytes| == MAX_LITERAL_CHUNK_SIZE
    ensures WellCut(cache, a + b, blockSize)
  {
    var ds := a + b;
    forall k | 0 <= k < |ds| - 1 && IsLiteral(ds[k]) && IsLiteral(ds[k + 1])
      ensures |ds[k].instruction.value.bytes| == MAX_LITERAL_CHUNK_SIZE
    {
      if k + 1 < |a| {
        assert IsLiteral(a[k]) && IsLiteral(a[k + 1]);
      } else if k >= |a| {
        assert IsLiteral(b[k - |a|]) && IsLiteral(b[k - |a| + 1]);
      }
    }
  }

  lemma WellCutRun(cache: seq<Bytes>, data: Bytes, start: nat, end: nat, blockSize: nat)
    requires start <= end <= |data| && end - start <= MAX_LITERAL_CHUNK_SIZE
    ensures WellCut(cache, Flush(data, start, end), blockSize)
  {
  }

  lemma WellCutReuse(cache: seq<Bytes>, a: seq<Delta>, reuse: seq<Delta>, b: seq<Delta>, blockSize: nat)
    requires WellCut(cache, a, blockSize) && WellCut(cache, b, blockSize)
    requires |reuse| == 1 && !IsLiteral(reuse[0]) && |Written(cache, reuse[0])| == blockSize
    ensures WellCut(cache, a + reuse + b, blockSize)
  {
    WellCutJoin(cache, a, reuse, blockSize);
    WellCutJoin(cache, a + reuse, b, blockSize);
  }

  lemma NaiveEndWellCut(blocks: seq<Bytes>, data: Bytes, blockSize: nat, start: nat)
    requires blockSize > 0 && start <= |data| && |data| - start < MAX_LITERAL_CHUNK_SIZE
    ensures WellCut(blocks, Scan(ByContent(blocks), data, blockSize, start, |data|), blockSize)
  {
    WellCutRun(blocks, data, start, |data|, blockSize);
    hide WellCut;
  }

  lemma NaiveReuseWellCut(blocks: seq<Bytes>, data: Bytes, blockSize: nat, start: nat, i: nat)
    requires blockSize > 0 && start <= i && i + blockSize <= |data| && i - start < MAX_LITERAL_CHUNK_SIZE
    requires ByContent(blocks).Find(data[i..i + blockSize]).Some?
    requires WellCut(blocks, Scan(ByContent(blocks), data, blockSize, i + blockSize, i + blockSize), blockSize)
    ensures WellCut(blocks, Scan(ByContent(blocks), data, blockSize, start, i), blockSize)
  {
    var block := ByContent(blocks).Find(data[i..i + blockSize]).value;
    var reuse := [Reuse(i, block)];
    assert Written(blocks, reuse[0]) == blocks[block] == data[i..i + blockSize] && !IsLiteral(reuse[0]);
    hide WellCut, Matcher.Find, Flush, Reuse, Written, IsLiteral, LastEqual;
    WellCutRun(blocks, data, start, i, blockSize);
    WellCutReuse(blocks, Flush(data, start, i), reuse,
                 Scan(ByContent(blocks), data, blockSize, i + blockSize, i + blockSize), blockSize);
  }

  lemma NaiveRunWellCut(blocks: seq<Bytes>, data: Bytes, blockSize: nat, start: nat, i: nat)
    requires blockSize > 0 && start <= i < |data| && i + 1 - start == MAX_LITERAL_CHUNK_SIZE
    requires i + blockSize <= |data| ==> ByContent(blocks).Find(data[i..i + blockSize]).None?
    requires WellCut(blocks, Scan(ByContent(blocks), data, blockSize, i + 1, i + 1), blockSize)
    ensures WellCut(blocks, Scan(ByContent(blocks), data, blockSize, start, i), blockSize)
  {
    WellCutRun(blocks, data, start, i + 1, blockSize);
    hide WellCut, Matcher.Find;
    WellCutJoin(blocks, Flush(data, start, i + 1), Scan(ByContent(blocks), data, blockSize, i + 1, i + 1), blockSize);
  }

  lemma NaiveByteWellCut(blocks: seq<Bytes>, data: Bytes, blockSize: nat, start: nat, i: nat)
    requires blockSize > 0 && start <= i < |data| && i + 1 - start < MAX_LITERAL_CHUNK_SIZE
    requires i + blockSize <= |data| ==> ByContent(blocks).Find(data[i..i + blockSize]).None?
    requires WellCut(blocks, Scan(ByContent(blocks), data, blockSize, start, i + 1), blockSize)
    ensures WellCut(blocks, Scan(ByContent(blocks), data, blockSize, start, i), blockSize)
  {
    hide WellCut, Matcher.Find;
  }

  lemma {:induction false} NaiveScanWellCut(blocks: seq<Bytes>, data: Bytes, blockSize: nat, start: nat, i: nat)
    requires blockSize > 0 && start <= i <= |data| && i - start < MAX_LITERAL_CHUNK_SIZE
    ensures WellCut(blocks, Scan(ByContent(blocks), data, blockSize, start, i), blockSize)
    decreases |data| - i
  {
    hide WellCut, Scan, Matcher.Find;
    if i + blockSize <= |data| && ByContent(blocks).Find(data[i..i + blockSize]).Some? {
      NaiveScanWellCut(blocks, data, blockSize, i + blockSize, i + blockSize);
      NaiveReuseWellCut(blocks, data, blockSize, start, i);
    } else if i == |data| {
      NaiveEndWellCut(blocks, data, blockSize, start);
    } else if i + 1 - start >= MAX_LITERAL_CHUNK_SIZE {
      NaiveScanWellCut(blocks, data, blockSize, i + 1, i + 1);
      NaiveRunWellCut(blocks, data, blockSize, start, i);
    } else {
      NaiveScanWellCut(blocks, data, blockSize, start, i + 1);
      NaiveByteWellCut(blocks, data, blockSize, start, i);
    }
  }

  /** The deltas the sender emits tile its file and are well cut. */
  lemma DeltasTile(h: Hashes, blocks: seq<Bytes>, data: Bytes, blockSize: nat)
    requires blockSize > 0 && |blocks| <= TWO_TO_THE_32 && NoCollision(h, blocks, data, blockSize)
    ensures var ds := Deltas(h, SignAll(h, blockSize, blocks), data);
      Tiles(blocks, ds, data, 0) && WellCut(blocks, ds, blockSize)
  {
    HashedScanIsNaive(h, blocks, data, blockSize);
    NaiveScanTiles(blocks, data, blockSize, 0, 0);
    NaiveScanWellCut(blocks, data, blockSize, 0, 0);
  }

  // ---------- Reuse without any collision assumption ----------

  lemma {:induction false} SignedFindsEqual(h: Hashes, blockSize: nat, blocks: seq<Bytes>, w: Bytes)
    requires w in blocks
    ensures BySignature(h, SignAll(h, blockSize, blocks)).Find(w).Some?
    decreases |blocks|
  {
    hide BuzHash.Weak;
    var n, all := |blocks| - 1, SignAll(h, blockSize, blocks);
    assert all.blocks[n] == Sign(h, blockSize, blocks[n]);
    if blocks[n] != w {
      assert w in blocks[..n];
      SignedFindsEqual(h, blockSize, blocks[..n], w);
      assert SignAll(h, blockSize, blocks[..n]).blocks == all.blocks[..n];
    }
  }

  /** The next `k` windows of `data`, one block size apart from `i` on, are old blocks. */
  ghost predicate AlignedBlocks(blocks: seq<Bytes>, data: Bytes, blockSize: nat, i: nat, k: nat)
    decreases k
  {
    k > 0 ==> i + blockSize <= |data| && data[i..i + blockSize] in blocks
              && AlignedBlocks(blocks, data, blockSize, i + blockSize, k - 1)
  }

  /** The list begins with `k` block references, one block size apart from `i` on. */
  ghost predicate BeginsWithReuse(ds: seq<Delta>, blockSize: nat, i: nat, k: nat)
    decreases k
  {
    k > 0 ==> ds != [] && ds[0].index == i && ds[0].instruction.Some? && ds[0].instruction.value.BlockIndex?
              && BeginsWithReuse(ds[1..], blockSize, i + blockSize, k - 1)
  }

  /** Aligned old blocks are always sent as references, whatever the hashes do. */
  lemma {:induction false} AlignedReuse(h: Hashes, blocks: seq<Bytes>, data: Bytes, blockSize: nat, i: nat, k: nat)
    requires blockSize > 0 && i <= |data| && AlignedBlocks(blocks, data, blockSize, i, k)
    ensures BeginsWithReuse(Scan(BySignature(h, SignAll(h, blockSize, blocks)), data, blockSize, i, i), blockSize, i, k)
    decreases k
  {
    if k > 0 {
      var m := BySignature(h, SignAll(h, blockSize, blocks));
      SignedFindsEqual(h, blockSize, blocks, data[i..i + blockSize]);
      AlignedReuse(h, blocks, data, blockSize, i + blockSize, k - 1);
      assert Scan(m, data, blockSize, i, i)[1..] == Scan(m, data, blockSize, i + blockSize, i + blockSize);
    }
  }

  /** The whole blocks that the old file and the data share at the same offsets from `i` up
      to `end` are aligned old blocks. */
  lemma {:induction false} SharedBlocksAreAligned(blocks: seq<Bytes>, oldFile: Bytes, data: Bytes, blockSize: nat,
                                                  i: nat, end: nat, k: nat)
    requires blockSize > 0 && end == i + k * blockSize && end <= |oldFile| && end <= |data|
    requires oldFile[i..end] == data[i..end]
    requires forall c :: c in Chunks(oldFile[i..], blockSize) ==> c in blocks
    ensures AlignedBlocks(blocks, data, blockSize, i, k)
    decreases k
  {
    if k > 0 {
      var next := i + blockSize;
      assert k * blockSize == blockSize + (k - 1) * blockSize;
      assert (k - 1) * blockSize >= 0;
      ChunksStep(oldFile, blockSize, i, next);
      assert oldFile[i..next] == oldFile[i..end][..blockSize] == data[i..end][..blockSize] == data[i..next];
      assert oldFile[next..end] == oldFile[i..end][blockSize..] == data[i..end][blockSize..] == data[next..end];
      hide AlignedBlocks, Chunks;
      SharedBlocksAreAligned(blocks, oldFile, data, blockSize, next, end, k - 1);
    }
  }

  /** If the new file begins with the first `k` whole blocks of the old one, the first `k`
      deltas are block references, one for each, whatever the hashes do. */
  lemma SharedPrefixReused(h: Hashes, oldFile: Bytes, data: Bytes, blockSize: nat, k: nat)
    requires blockSize > 0 && k * blockSize <= |oldFile| && k * blockSize <= |data|
    requires oldFile[..k * blockSize] == data[..k * blockSize]
    ensures BeginsWithReuse(Deltas(h, SignAll(h, blockSize, Chunks(oldFile, blockSize)), data), blockSize, 0, k)
  {
    assert oldFile[0..] == oldFile;
    hide Chunks, AlignedBlocks, BeginsWithReuse, Scan;
    SharedBlocksAreAligned(Chunks(oldFile, blockSize), oldFile, data, blockSize, 0, k * blockSize, k);
    AlignedReuse(h, Chunks(oldFile, blockSize), data, blockSize, 0, k);
  }

  /** What is left when less than a block remains is sent as literals. */
  lemma {:induction false} TailIsLiteral(m: Matcher, data: Bytes, blockSize: nat, start: nat, i: nat)
    requires start <= i <= |data| < i + blockSize && i - start < MAX_LITERAL_CHUNK_SIZE
    ensures Scan(m, data, blockSize, start, i) == LiteralChunks(data[start..], start)
    decreases |data| - i
  {
    if i == |data| {
      FlushIsOneChunk(data, start, i);
      assert data[start..i] == data[start..];
    } else if i + 1 - start >= MAX_LITERAL_CHUNK_SIZE {
      TailIsLiteral(m, data, blockSize, i + 1, i + 1);
      assert data[start..][..i + 1 - start] == data[start..i + 1];
      assert data[start..][i + 1 - start..] == data[i + 1..];
    } else {
      TailIsLiteral(m, data, blockSize, start, i + 1);
    }
  }

  /** One reference for each whole block of `data[i..]`, at the offset of the block, then
      the bytes that fill no block, and nothing else. */
  ghost predicate ReuseThenTail(ds: seq<Delta>, data: Bytes, blockSize: nat, i: nat)
    requires blockSize > 0 && i <= |data|
    decreases |data| - i
  {
    if i + blockSize <= |data| then
      && ds != [] && ds[0].index == i && ds[0].instruction.Some? && ds[0].instruction.value.BlockIndex?
      && ReuseThenTail(ds[1..], data, blockSize, i + blockSize)
    else ds == LiteralChunks(data[i..], i)
  }

  lemma {:induction false} UnchangedFrom(h: Hashes, blocks: seq<Bytes>, data: Bytes, blockSize: nat, i: nat)
    requires blockSize > 0 && i <= |data|
    requires forall c :: c in Chunks(data[i..], blockSize) ==> c in blocks
    ensures ReuseThenTail(Scan(BySignature(h, SignAll(h, blockSize, blocks)), data, blockSize, i, i), data, blockSize, i)
    decreases |data| - i
  {
    var m := BySignature(h, SignAll(h, blockSize, blocks));
    if i + blockSize <= |data| {
      var w := data[i..i + blockSize];
      ChunksStep(data, blockSize, i, i + blockSize);
      SignedFindsEqual(h, blockSize, blocks, w);
      hide Matcher.Find, Chunks;
      UnchangedFrom(h, blocks, data, blockSize, i + blockSize);
      assert Scan(m, data, blockSize, i, i)[1..] == Scan(m, data, blockSize, i + blockSize, i + blockSize);
    } else {
      TailIsLiteral(m, data, blockSize, i, i);
    }
  }

  /** An unchanged file is sent as references to whole blocks and its short tail. */
  lemma UnchangedFile(h: Hashes, data: Bytes, blockSize: nat)
    requires blockSize > 0
    ensures ReuseThenTail(Deltas(h, SignAll(h, blockSize, Chunks(data, blockSize)), data), data, blockSize, 0)
  {
    assert data[0..] == data;
    hide Chunks, ReuseThenTail, Scan;
    UnchangedFrom(h, Chunks(data, blockSize), data, blockSize, 0);
  }

  // ---------- The literals, whatever the hashes ----------

  /** Literals hold 1 to 4 MiB less 64 KiB, and one that another follows holds all of that. */
  ghost predicate LiteralsCut(ds: seq<Delta>) {
    && (forall k :: 0 <= k < |ds| && IsLiteral(ds[k]) ==> 0 < |ds[k].instruction.value.bytes| <= 4_128_768)
    && (forall k :: 0 <= k < |ds| - 1 && IsLiteral(ds[k]) && IsLiteral(ds[k + 1]) ==>
          |ds[k].instruction.value.bytes| == 4_128_768)
  }

  lemma LiteralsCutCons(d: Delta, rest: seq<Delta>)
    requires LiteralsCut(rest) && (IsLiteral(d) ==> 0 < |d.instruction.value.bytes| <= 4_128_768)
    requires IsLiteral(d) && rest != [] && IsLiteral(rest[0]) ==> |d.instruction.value.bytes| == 4_128_768
    ensures LiteralsCut([d] + rest)
  {
    var ds := [d] + rest;
    forall k | 0 < k < |ds| ensures ds[k] == rest[k - 1] {}
  }

  lemma {:induction false} ScanCutsLiterals(m: Matcher, data: Bytes, blockSize: nat, start: nat, i: nat)
    requires blockSize > 0 && start <= i <= |data| && i - start < MAX_LITERAL_CHUNK_SIZE
    ensures LiteralsCut(Scan(m, data, blockSize, start, i))
    decreases |data| - i
  {
    hide Matcher.Find, LiteralsCut;
    assert LiteralsCut([]) by { NoLiterals(); }
    if i + blockSize <= |data| && m.Find(data[i..i + blockSize]).Some? {
      var reuse := Reuse(i, m.Find(data[i..i + blockSize]).value);
      var rest := Scan(m, data, blockSize, i + blockSize, i + blockSize);
      ScanCutsLiterals(m, data, blockSize, i + blockSize, i + blockSize);
      LiteralsCutCons(reuse, rest);
      if start < i {
        LiteralsCutCons(Run(data, start, i), [reuse] + rest);
        assert [Run(data, start, i)] + ([reuse] + rest) == Flush(data, start, i) + [reuse] + rest;
      } else {
        assert [reuse] + rest == Flush(data, start, i) + [reuse] + rest;
      }
    } else if i == |data| {
      if start < i {
        LiteralsCutCons(Run(data, start, i), []);
        assert [Run(data, start, i)] + [] == Flush(data, start, i);
      }
    } else if i + 1 - start >= MAX_LITERAL_CHUNK_SIZE {
      ScanCutsLiterals(m, data, blockSize, i + 1, i + 1);
      LiteralsCutCons(Run(data, start, i + 1), Scan(m, data, blockSize, i + 1, i + 1));
    } else {
      ScanCutsLiterals(m, data, blockSize, start, i + 1);
    }
  }

  lemma NoLiterals()
    ensures LiteralsCut([])
  {
  }

  /** No window that begins in `data[start..end]`, if a whole one is left, is an old block. */
  ghost predicate NewBetween(blocks: seq<Bytes>, data: Bytes, blockSize: nat, start: nat, end: nat) {
    forall p :: start <= p < end && p + blockSize <= |data| ==> Window(data, p, blockSize) !in blocks
  }

  ghost predicate LiteralsNew(blocks: seq<Bytes>, data: Bytes, blockSize: nat, ds: seq<Delta>) {
    forall k :: 0 <= k < |ds| && IsLiteral(ds[k]) ==>
      NewBetween(blocks, data, blockSize, ds[k].index, ds[k].index + |ds[k].instruction.value.bytes|)
  }

  lemma LiteralsNewJoin(blocks: seq<Bytes>, data: Bytes, blockSize: nat, a: seq<Delta>, b: seq<Delta>)
    requires LiteralsNew(blocks, data, blockSize, a) && LiteralsNew(blocks, data, blockSize, b)
    ensures LiteralsNew(blocks, data, blockSize, a + b)
  {
    hide NewBetween;
  }

  lemma NewFlush(blocks: seq<Bytes>, data: Bytes, blockSize: nat, start: nat, end: nat)
    requires start <= end <= |data| && NewBetween(blocks, data, blockSize, start, end)
    ensures LiteralsNew(blocks, data, blockSize, Flush(data, start, end))
    ensures start < end ==> LiteralsNew(blocks, data, blockSize, [Run(data, start, end)])
  {
    hide NewBetween;
  }

  /** Where the scan finds nothing there is nothing to find. */
  lemma UnfoundIsNew(h: Hashes, blocks: seq<Bytes>, data: Bytes, blockSize: nat, start: nat, i: nat)
    requires start <= i < |data| && NewBetween(blocks, data, blockSize, start, i)
    requires i + blockSize <= |data| ==> BySignature(h, SignAll(h, blockSize, blocks)).Find(data[i..i + blockSize]).None?
    ensures NewBetween(blocks, data, blockSize, start, i + 1)
    ensures NewBetween(blocks, data, blockSize, i + 1, i + 1)
  {
    if i + blockSize <= |data| && Window(data, i, blockSize) in blocks {
      SignedFindsEqual(h, blockSize, blocks, data[i..i + blockSize]);
    }
  }

  lemma ReuseIsNoLiteral(blocks: seq<Bytes>, data: Bytes, blockSize: nat, i: nat, block: nat)
    ensures LiteralsNew(blocks, data, blockSize, [Reuse(i, block)])
    ensures NewBetween(blocks, data, blockSize, i + blockSize, i + blockSize)
  {
  }

  lemma {:induction false} ScanIsGreedy(h: Hashes, blocks: seq<Bytes>, data: Bytes, blockSize: nat, start: nat, i: nat)
    requires blockSize > 0 && start <= i <= |data| && NewBetween(blocks, data, blockSize, start, i)
    ensures LiteralsNew(blocks, data, blockSize, Scan(BySignature(h, SignAll(h, blockSize, blocks)), data, blockSize, start, i))
    decreases |data| - i
  {
    var m := BySignature(h, SignAll(h, blockSize, blocks));
    hide Matcher.Find, SignAll, NewBetween, LiteralsNew, Flush, Run, Reuse;
    if i + blockSize <= |data| && m.Find(data[i..i + blockSize]).Some? {
      var j, block := i + blockSize, m.Find(data[i..i + blockSize]).value;
      NewFlush(blocks, data, blockSize, start, i);
      ReuseIsNoLiteral(blocks, data, blockSize, i, block);
      ScanIsGreedy(h, blocks, data, blockSize, j, j);
      LiteralsNewJoin(blocks, data, blockSize, Flush(data, start, i), [Reuse(i, block)]);
      LiteralsNewJoin(blocks, data, blockSize, Flush(data, start, i) + [Reuse(i, block)], Scan(m, data, blockSize, j, j));
    } else if i == |data| {
      NewFlush(blocks, data, blockSize, start, i);
    } else {
      UnfoundIsNew(h, blocks, data, blockSize, start, i);
      if i + 1 - start >= MAX_LITERAL_CHUNK_SIZE {
        NewFlush(blocks, data, blockSize, start, i + 1);
        ScanIsGreedy(h, blocks, data, blockSize, i + 1, i + 1);
        LiteralsNewJoin(blocks, data, blockSize, [Run(data, start, i + 1)], Scan(m, data, blockSize, i + 1, i + 1));
      } else {
        ScanIsGreedy(h, blocks, data, blockSize, start, i + 1);
      }
    }
  }

  /** What is sent as literal bytes, whatever the hashes: pieces of at most 4 MiB less 64 KiB,
      a piece that another follows of exactly that size, and no byte at which a window equal to
      an old block begins. */
  lemma LiteralsAreNew(h: Hashes, blocks: seq<Bytes>, data: Bytes, blockSize: nat, k: nat)
    requires blockSize > 0 && k < |Deltas(h, SignAll(h, blockSize, blocks), data)|
    requires IsLiteral(Deltas(h, SignAll(h, blockSize, blocks), data)[k])
    ensures var ds := Deltas(h, SignAll(h, blockSize, blocks), data);
      var start, n := ds[k].index, |ds[k].instruction.value.bytes|;
      && 0 < n <= 4_128_768
      && (k + 1 < |ds| && IsLiteral(ds[k + 1]) ==> n == 4_128_768)
      && forall p :: start <= p < start + n && p + blockSize <= |data| ==> Window(data, p, blockSize) !in blocks
  {
    ScanCutsLiterals(BySignature(h, SignAll(h, blockSize, blocks)), data, blockSize, 0, 0);
    ScanIsGreedy(h, blocks, data, blockSize, 0, 0);
    hide Scan, SignAll;
  }
}
