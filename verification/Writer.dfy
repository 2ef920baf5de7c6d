/** The delta writer of src/utils/writer.rs: a temporary file rebuilt delta by delta, then
    renamed over the target. */
module Writer {
  import opened Common
  import opened Messages

  datatype File = File(content: Bytes, modified: Timestamp)

  type Files = map<Path, File>

  function FileAt(files: Files, path: Path): Option<File> {
    if path in files then Some(files[path]) else None
  }

  /** The content of a file; a missing one is read as empty. */
  function ContentOr(file: Option<File>): Bytes {
    match file case Some(f) => f.content case None => []
  }

  /** The temporary file beside `path`: its last component with ".tmp" appended. */
  function TempPath(path: Path): (temp: Path)
    ensures path != [] ==>
      && |temp| == |path| && temp[..|path| - 1] == path[..|path| - 1]
      && temp[|path| - 1] == path[|path| - 1] + ".tmp" && temp != path
  {
    if path == [] then path
    else
      var n := |path| - 1;
      assert |path[n] + ".tmp"| != |path[n]|;
      path[..n] + [path[n] + ".tmp"]
  }

  lemma TempPathInjective(p: Path, q: Path)
    requires p != [] && q != [] && TempPath(p) == TempPath(q)
    ensures p == q
  {
    var n := |p| - 1;
    assert p == TempPath(p)[..n] + [p[n]] && q == TempPath(q)[..n] + [q[n]];
    assert TempPath(p)[n] == p[n] + ".tmp" && TempPath(q)[n] == q[n] + ".tmp";
    assert p[n] == (p[n] + ".tmp")[..|p[n]|] && q[n] == (q[n] + ".tmp")[..|q[n]|];
  }

  /** Seeks to `offset` and writes: a gap past the end is filled with zeros, and writing
      nothing changes nothing. */
  function WriteAt(content: Bytes, offset: nat, bytes: Bytes): (r: Bytes)
    ensures |r| == if bytes != [] && offset + |bytes| > |content| then offset + |bytes| else |content|
    ensures forall p :: 0 <= p < |r| ==>
      r[p] == if offset <= p < offset + |bytes| then bytes[p - offset]
              else if p < |content| then content[p] else 0
  {
    if bytes == [] then content
    else
      var before := if offset <= |content| then content[..offset]
                    else content + seq(offset - |content|, _ => 0);
      before + bytes + if offset + |bytes| <= |content| then content[offset + |bytes|..] else []
  }

  datatype WriterError = BlockOutOfRange | NoInstruction

  /** The temporary file while it is written, and whether the writer has died. */
  datatype Progress = Open(content: Bytes) | Failed(content: Bytes, error: WriterError)

  function Apply(cache: seq<Bytes>, p: Progress, d: Delta): Progress {
    if p.Failed? then p
    else
      match d.instruction
      case Some(BlockIndex(k)) =>
        if k < |cache| then Open(WriteAt(p.content, d.index, cache[k])) else Failed(p.content, BlockOutOfRange)
      case Some(Literal(bytes)) => Open(WriteAt(p.content, d.index, bytes))
      case None => Failed(p.content, NoInstruction)
  }

  function Rebuild(cache: seq<Bytes>, ds: seq<Delta>): Progress {
    if ds == [] then Open([]) else Apply(cache, Rebuild(cache, ds[..|ds| - 1]), ds[|ds| - 1])
  }

  /** What the writer leaves on disk after all of `ds`: on success the target replaced, on
      failure the target untouched and the temporary file left behind. */
  function Finished(files: Files, path: Path, cache: seq<Bytes>, ds: seq<Delta>, modified: Timestamp): Files {
    match Rebuild(cache, ds)
    case Open(content) => (files - {TempPath(path)})[path := File(content, modified)]
    case Failed(content, _) => files[TempPath(path) := File(content, EPOCH)]
  }

  class Disk {
    var files: Files

    constructor (files: Files)
      ensures this.files == files
    {
      this.files := files;
    }

    method Create(path: Path)
      modifies this
      ensures files == old(files)[path := File([], EPOCH)]
    {
      files := files[path := File([], EPOCH)];
    }

    method SeekAndWrite(path: Path, offset: nat, bytes: Bytes)
      requires path in files
      modifies this
      ensures files == old(files)[path := File(WriteAt(old(files)[path].content, offset, bytes), EPOCH)]
    {
      files := files[path := File(WriteAt(files[path].content, offset, bytes), EPOCH)];
    }

    /** Renames and sets the modification time of the result. */
    method Rename(from: Path, to: Path, modified: Timestamp)
      requires from in files && from != to
      modifies this
      ensures files == (old(files) - {from})[to := File(old(files)[from].content, modified)]
    {
      files := (files - {from})[to := File(files[from].content, modified)];
    }
  }

  lemma {:induction false} FailureIsFinal(cache: seq<Bytes>, ds: seq<Delta>, k: nat)
    requires k <= |ds| && Rebuild(cache, ds[..k]).Failed?
    ensures Rebuild(cache, ds) == Rebuild(cache, ds[..k])
    decreases |ds| - k
  {
    if k < |ds| {
      assert ds[..k + 1][..k] == ds[..k];
      FailureIsFinal(cache, ds, k + 1);
    } else {
      assert ds[..k] == ds;
    }
  }

  /** One round of the writer's loop; an error ends it. */
  method WriteDelta(disk: Disk, temp: Path, cache: seq<Bytes>, delta: Delta) returns (error: Option<WriterError>)
    requires temp in disk.files
    modifies disk
    ensures var p := Apply(cache, Open(old(disk.files)[temp].content), delta);
      && error == (match p case Open(_) => None case Failed(_, e) => Some(e))
      && disk.files == if p.Open? then old(disk.files)[temp := File(p.content, EPOCH)] else old(disk.files)
  {
    error := None;
    match delta.instruction {
      case Some(BlockIndex(k)) =>
        if k >= |cache| {
          return Some(BlockOutOfRange);
        }
        disk.SeekAndWrite(temp, delta.index, cache[k]);
      case Some(Literal(bytes)) =>
        disk.SeekAndWrite(temp, delta.index, bytes);
      case None =>
        return Some(NoInstruction);
    }
  }

  lemma RebuildStep(cache: seq<Bytes>, ds: seq<Delta>, k: nat)
    requires k < |ds|
    ensures Rebuild(cache, ds[..k + 1]) == Apply(cache, Rebuild(cache, ds[..k]), ds[k])
  {
    assert ds[..k + 1][..k] == ds[..k];
  }

  lemma EmptyRebuild(cache: seq<Bytes>)
    ensures Rebuild(cache, []) == Open([])
  {
  }

  /** The writer task, given everything its channel will ever deliver. */
  method DeltaWriter(disk: Disk, path: Path, cache: seq<Bytes>, deltas: seq<Delta>, modified: Timestamp)
    returns (error: Option<WriterError>)
    requires path != []
    modifies disk
    ensures disk.files == Finished(old(disk.files), path, cache, deltas, modified)
    ensures error == match Rebuild(cache, deltas) case Open(_) => None case Failed(_, e) => Some(e)
  {
    hide Rebuild, Apply;
    EmptyRebuild(cache);
    var temp := TempPath(path);
    disk.Create(temp);
    var n := 0;
    while n < |deltas|
      invariant n <= |deltas|
      invariant Rebuild(cache, deltas[..n]).Open?
      invariant disk.files == old(disk.files)[temp := File(Rebuild(cache, deltas[..n]).content, EPOCH)]
    {
      RebuildStep(cache, deltas, n);
      FailureKeepsContent(cache, Rebuild(cache, deltas[..n]), deltas[n]);
      error := WriteDelta(disk, temp, cache, deltas[n]);
      if error.Some? {
        FailureIsFinal(cache, deltas, n + 1);
        return;
      }
      n := n + 1;
    }
    assert deltas[..n] == deltas;
    disk.Rename(temp, path, modified);
    error := None;
  }

  lemma FailureKeepsContent(cache: seq<Bytes>, p: Progress, d: Delta)
    ensures Apply(cache, p, d).Failed? ==> Apply(cache, p, d).content == p.content
  {
  }

  // ---------- Which deltas kill the writer ----------

  /** The delta names a block the cache does not have, or gives no instruction. */
  predicate Breaks(cache: seq<Bytes>, d: Delta) {
    d.instruction.None? || (d.instruction.value.BlockIndex? && d.instruction.value.block >= |cache|)
  }

  lemma {:induction false} UnbrokenIsOpen(cache: seq<Bytes>, ds: seq<Delta>)
    ensures Rebuild(cache, ds).Open? <==> forall k :: 0 <= k < |ds| ==> !Breaks(cache, ds[k])
    decreases |ds|
  {
    if ds != [] {
      var n := |ds| - 1;
      UnbrokenIsOpen(cache, ds[..n]);
      assert forall k :: 0 <= k < n ==> ds[..n][k] == ds[k];
    }
  }

  /** The first delta that breaks ends the writer, with what was written before it. */
  lemma FirstBreakEnds(cache: seq<Bytes>, ds: seq<Delta>, k: nat)
    requires k < |ds| && Breaks(cache, ds[k]) && forall j :: 0 <= j < k ==> !Breaks(cache, ds[j])
    ensures Rebuild(cache, ds[..k]).Open?
    ensures Rebuild(cache, ds)
         == Failed(Rebuild(cache, ds[..k]).content, if ds[k].instruction.None? then NoInstruction else BlockOutOfRange)
  {
    UnbrokenIsOpen(cache, ds[..k]);
    RebuildStep(cache, ds, k);
    FailureIsFinal(cache, ds, k + 1);
  }

  /** What the writer leaves, file by file. If no delta breaks, the target is what was rebuilt,
      with the given time, and the temporary file is gone; if one does, the target is as it was
      and the temporary file holds what was written before. All other files are as they were. */
  lemma FinishedIs(files: Files, path: Path, cache: seq<Bytes>, ds: seq<Delta>, modified: Timestamp, k: nat)
    requires path != [] && k <= |ds| && (forall j :: 0 <= j < k ==> !Breaks(cache, ds[j]))
    requires k < |ds| ==> Breaks(cache, ds[k])
    ensures Rebuild(cache, ds[..k]).Open?
    ensures var after, temp, written := Finished(files, path, cache, ds, modified), TempPath(path), Rebuild(cache, ds[..k]).content;
      && (k == |ds| ==> FileAt(after, path) == Some(File(written, modified)) && temp !in after)
      && (k < |ds| ==> FileAt(after, path) == FileAt(files, path) && temp in after && after[temp].content == written)
      && forall p :: p != path && p != temp ==> FileAt(after, p) == FileAt(files, p)
  {
    UnbrokenIsOpen(cache, ds[..k]);
    assert TempPath(path) != path;
    if k < |ds| {
      FirstBreakEnds(cache, ds, k);
    } else {
      assert ds[..k] == ds;
    }
    hide Rebuild, TempPath;
  }
}
