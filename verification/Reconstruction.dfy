/** The writer undoes the scan: rebuilding from a tiling gives the tiled data back. */
module Reconstruction {
  import opened Common
  import opened Messages
  import opened Signatures
  import opened DeltaScan
  import opened ScanProperties
  import opened Writer

  lemma PrefixGrows(data: Bytes, b: nat, w: Bytes)
    requires b + |w| <= |data| && data[b..b + |w|] == w
    ensures WriteAt(data[..b], b, w) == data[..b + |w|]
  {
    var r := WriteAt(data[..b], b, w);
    forall p | 0 <= p < |r| ensures r[p] == data[p] {
      if b <= p { assert data[b..b + |w|][p - b] == data[p]; }
    }
  }

  /** A delta that writes the next piece of the data extends the prefix. */
  lemma PieceExtends(cache: seq<Bytes>, d: Delta, data: Bytes, b: nat)
    requires var w := Written(cache, d);
      Usable(cache, d) && d.index == b && b + |w| <= |data| && data[b..b + |w|] == w
    ensures Apply(cache, Open(data[..b]), d) == Open(data[..b + |Written(cache, d)|])
  {
    PrefixGrows(data, b, Written(cache, d));
    hide WriteAt;
  }

  lemma BoundaryStep(cache: seq<Bytes>, ds: seq<Delta>, k: nat)
    requires k < |ds|
    ensures Boundary(cache, ds, k + 1) == Boundary(cache, ds, k) + |Written(cache, ds[k])|
  {
    hide Written;
  }

  lemma PrefixStep(cache: seq<Bytes>, ds: seq<Delta>, data: Bytes, k: nat)
    requires Tiles(cache, ds, data, 0) && k < |ds|
    requires Boundary(cache, ds, k) <= |data|
    requires Rebuild(cache, ds[..k]) == Open(data[..Boundary(cache, ds, k)])
    ensures Boundary(cache, ds, k + 1) <= |data|
    ensures Rebuild(cache, ds[..k + 1]) == Open(data[..Boundary(cache, ds, k + 1)])
  {
    hide *;
    TilesAt(cache, ds, data, 0, k);
    RebuildStep(cache, ds, k);
    BoundaryStep(cache, ds, k);
    PieceExtends(cache, ds[k], data, Boundary(cache, ds, k));
  }

  /** After the first `k` deltas the temporary file is exactly the data up to the end of
      delta `k`. */
  lemma {:induction false} PrefixRebuilt(cache: seq<Bytes>, ds: seq<Delta>, data: Bytes, k: nat)
    requires Tiles(cache, ds, data, 0) && k <= |ds|
    ensures Boundary(cache, ds, k) <= |data|
    ensures Rebuild(cache, ds[..k]) == Open(data[..Boundary(cache, ds, k)])
  {
    if k == 0 {
      EmptyRebuild(cache);
    } else {
      hide *;
      PrefixRebuilt(cache, ds, data, k - 1);
      PrefixStep(cache, ds, data, k - 1);
    }
  }

  /** Deltas that can be carried out never kill the writer. */
  lemma {:induction false} UsableRebuilds(cache: seq<Bytes>, ds: seq<Delta>)
    requires forall d :: d in ds ==> Usable(cache, d)
    ensures Rebuild(cache, ds).Open?
    decreases |ds|
  {
    if ds != [] {
      UsableRebuilds(cache, ds[..|ds| - 1]);
      assert ds[|ds| - 1] in ds;
    }
  }

  /** Rebuilding is the inverse of the scan, for every old file, new file and block size. */
  lemma RoundTrip(h: Hashes, oldFile: Option<Bytes>, data: Bytes, blockSize: nat)
    requires blockSize > 0
    requires |Chunks(oldFile.GetOr([]), blockSize)| <= TWO_TO_THE_32
    requires NoCollision(h, Chunks(oldFile.GetOr([]), blockSize), data, blockSize)
    ensures var cache := Chunks(oldFile.GetOr([]), blockSize);
      Rebuild(cache, Deltas(h, SignAll(h, blockSize, cache), data)) == Open(data)
  {
    var cache := Chunks(oldFile.GetOr([]), blockSize);
    var ds := Deltas(h, SignAll(h, blockSize, cache), data);
    DeltasTile(h, cache, data, blockSize);
    PrefixRebuilt(cache, ds, data, |ds|);
    TilesAt(cache, ds, data, 0, |ds|);
    assert ds[..|ds|] == ds;
  }

  /** A writer that receives the whole answer replaces the target by the source, with the
      given timestamp, and leaves no temporary file. */
  lemma WriterInstallsSource(h: Hashes, files: Files, path: Path, data: Bytes, blockSize: nat, modified: Timestamp)
    requires blockSize > 0
    requires var blocks := Chunks(ContentOr(FileAt(files, path)), blockSize);
      |blocks| <= TWO_TO_THE_32 && NoCollision(h, blocks, data, blockSize)
    ensures var cache := Chunks(ContentOr(FileAt(files, path)), blockSize);
      Finished(files, path, cache, Deltas(h, SignAll(h, blockSize, cache), data), modified)
      == (files - {TempPath(path)})[path := File(data, modified)]
  {
    RoundTrip(h, if path in files then Some(files[path].content) else None, data, blockSize);
  }

  // ---------- Order independence ----------

  ghost predicate Covers(cache: seq<Bytes>, d: Delta, p: int) {
    d.index <= p < d.index + |Written(cache, d)|
  }

  /** Every position of the data lies in some delta. */
  lemma {:induction false} TilingCovers(cache: seq<Bytes>, ds: seq<Delta>, data: Bytes, pos: nat, p: nat)
    requires Tiles(cache, ds, data, pos) && pos <= p < |data|
    ensures exists d :: d in ds && Covers(cache, d, p)
    decreases |ds|
  {
    var w := Written(cache, ds[0]);
    if p < pos + |w| {
      assert ds[0] in ds && Covers(cache, ds[0], p);
    } else {
      TilingCovers(cache, ds[1..], data, pos + |w|, p);
      var d :| d in ds[1..] && Covers(cache, d, p);
      assert d in ds;
    }
  }

  /** The delta writes a non-empty piece of the data at its place. */
  ghost predicate PieceOf(cache: seq<Bytes>, d: Delta, data: Bytes) {
    var w := Written(cache, d);
    && Usable(cache, d) && w != []
    && d.index + |w| <= |data| && data[d.index..d.index + |w|] == w
  }

  /** The content holds the applied deltas and is wrong only where none was applied. */
  ghost predicate Partial(cache: seq<Bytes>, es: seq<Delta>, content: Bytes, data: Bytes) {
    && |content| <= |data|
    && (forall e :: e in es ==> e.index + |Written(cache, e)| <= |content|)
    && (forall e, p :: e in es && Covers(cache, e, p) && 0 <= p < |content| ==> content[p] == data[p])
  }

  lemma {:induction false} AnyOrderPartial(cache: seq<Bytes>, es: seq<Delta>, data: Bytes)
    requires forall e :: e in es ==> PieceOf(cache, e, data)
    ensures Rebuild(cache, es).Open? && Partial(cache, es, Rebuild(cache, es).content, data)
    decreases |es|
  {
    if es != [] {
      var n := |es| - 1;
      assert forall e :: e in es <==> e in es[..n] || e == es[n];
      AnyOrderPartial(cache, es[..n], data);
      hide Partial, Rebuild;
      PartialGrows(cache, es[..n], es[n], Rebuild(cache, es[..n]).content, data);
      assert es == es[..n] + [es[n]];
    }
  }

  lemma PartialGrows(cache: seq<Bytes>, es: seq<Delta>, d: Delta, content: Bytes, data: Bytes)
    requires Partial(cache, es, content, data) && PieceOf(cache, d, data)
    ensures Apply(cache, Open(content), d).Open?
    ensures Partial(cache, es + [d], Apply(cache, Open(content), d).content, data)
  {
    var w := Written(cache, d);
    var after := WriteAt(content, d.index, w);
    assert Apply(cache, Open(content), d) == Open(after);
    hide WriteAt, Apply;
    forall e, p | e in es + [d] && Covers(cache, e, p) && 0 <= p < |after| ensures after[p] == data[p] {
      if d.index <= p < d.index + |w| {
        assert data[d.index..d.index + |w|][p - d.index] == data[p];
      } else {
        assert e in es && Covers(cache, e, p);
      }
    }
  }

  /** Applying a tiling in any order, with any repetitions, rebuilds the data: the writes
      are absolute, and every zero-filled gap is later overwritten. */
  lemma AnyOrderRebuilds(cache: seq<Bytes>, ds: seq<Delta>, data: Bytes, es: seq<Delta>)
    requires Tiles(cache, ds, data, 0)
    requires forall d :: d in ds <==> d in es
    ensures Rebuild(cache, es) == Open(data)
  {
    hide Tiles, Rebuild;
    forall e | e in es ensures PieceOf(cache, e, data) {
      var k :| 0 <= k < |ds| && ds[k] == e;
      TilesAt(cache, ds, data, 0, k);
    }
    AnyOrderPartial(cache, es, data);
    var content := Rebuild(cache, es).content;
    if data != [] {
      AnyOrderAt(cache, ds, data, es, content, |data| - 1);
    }
    forall p: nat | p < |data| ensures content[p] == data[p] {
      AnyOrderAt(cache, ds, data, es, content, p);
    }
  }

  lemma AnyOrderAt(cache: seq<Bytes>, ds: seq<Delta>, data: Bytes, es: seq<Delta>, content: Bytes, p: nat)
    requires Tiles(cache, ds, data, 0) && p < |data|
    requires (forall d :: d in ds ==> d in es) && Partial(cache, es, content, data)
    ensures p < |content| && content[p] == data[p]
  {
    TilingCovers(cache, ds, data, 0, p);
    var d :| d in ds && Covers(cache, d, p);
    assert d in es;
  }
}
