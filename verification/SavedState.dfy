/** The saved state and the diff against it, from src/sync/state.rs. */
module SavedState {
  import opened Common
  import opened Messages
  import opened PathOrder
  import opened SyncPlan

  // ---------- Timestamps on disk ----------

  const I64_MAX: int := 0x7fff_ffff_ffff_ffff

  predicate FitsI64(n: int) { -I64_MAX - 1 <= n <= I64_MAX }

  /** Rust's integer division and remainder, which truncate toward zero. */
  function TruncDiv(n: int, d: int): int
    requires d > 0
  {
    if n >= 0 then n / d else -(-n / d)
  }

  function TruncRem(n: int, d: int): int
    requires d > 0
  {
    n - TruncDiv(n, d) * d
  }

  /** `timestamp_proto::serialize`; the source computes it in 64 bits. */
  function ToMicros(ts: Timestamp): int {
    ts.seconds * 1_000_000 + TruncDiv(ts.nanos, 1_000)
  }

  /** `timestamp_proto::deserialize`. */
  function FromMicros(micros: int): Timestamp {
    Timestamp(TruncDiv(micros, 1_000_000), TruncRem(micros, 1_000_000) * 1_000)
  }

  /** What saving and loading makes of a timestamp. */
  function Reloaded(ts: Timestamp): Timestamp { FromMicros(ToMicros(ts)) }

  /** Loading and saving is the identity on every 64-bit count of microseconds, negative ones
      included, without overflow. */
  lemma MicrosRoundTrip(micros: int)
    requires FitsI64(micros)
    ensures ToMicros(FromMicros(micros)) == micros
    ensures FitsI64(FromMicros(micros).seconds * 1_000_000)
    ensures -1_000_000_000 < FromMicros(micros).nanos < 1_000_000_000
  {
    var q := TruncDiv(micros, 1_000_000);
    var r := TruncRem(micros, 1_000_000);
    assert -1_000_000 < r < 1_000_000;
    assert TruncDiv(r * 1_000, 1_000) == r;
  }

  /** A normal timestamp: not before the epoch, nanoseconds within a second. */
  predicate Normal(ts: Timestamp) {
    ts.seconds >= 0 && 0 <= ts.nanos < 1_000_000_000
  }

  /** Exactly which normal timestamps can be saved without overflow. */
  lemma SavableExactly(ts: Timestamp)
    requires Normal(ts)
    ensures FitsI64(ToMicros(ts)) <==>
      ts.seconds < 9_223_372_036_854 || (ts.seconds == 9_223_372_036_854 && ts.nanos < 775_808_000)
  {
  }

  predicate Savable(ts: Timestamp) {
    Normal(ts) && FitsI64(ToMicros(ts))
  }

  /** Saving and loading cuts a savable timestamp to the microsecond and keeps the order. */
  lemma ReloadTruncates(ts: Timestamp, ts': Timestamp)
    requires Savable(ts) && Savable(ts')
    ensures Reloaded(ts) == Timestamp(ts.seconds, ts.nanos - ts.nanos % 1_000)
    ensures !Reloaded(ts).Newer(ts)
    ensures !ts.Newer(ts') ==> !Reloaded(ts).Newer(Reloaded(ts'))
  {
    ReloadIsCut(ts);
    ReloadIsCut(ts');
  }

  lemma ReloadIsCut(ts: Timestamp)
    requires Normal(ts)
    ensures Reloaded(ts) == Timestamp(ts.seconds, ts.nanos - ts.nanos % 1_000)
  {
    var m := ts.nanos / 1_000;
    assert ToMicros(ts) == ts.seconds * 1_000_000 + m && 0 <= m < 1_000_000;
    assert TruncDiv(ToMicros(ts), 1_000_000) == ts.seconds;
  }

  // ---------- Comparing states ----------

  datatype Change = Added | Removed | Modified

  datatype Diff = Diff(path: Path, change: Change, hash: Digest, modified: Timestamp)

  predicate HasHiddenComponents(p: Path) {
    exists i :: 0 <= i < |p| && p[i] != [] && p[i][0] == '.'
  }

  /** The path counts as changed: it is on one side only, or the digests differ. */
  predicate Differs(before: LocalTree, now: LocalTree, p: Path) {
    (p in before || p in now) && (p in before && p in now ==> before[p].hash != now[p].hash)
  }

  /** The entry for a changed path. A modified file is listed with the metadata of the newer
      side, which is `before` when the timestamps tie. */
  function DiffFor(before: LocalTree, now: LocalTree, p: Path): Diff
    requires Differs(before, now, p)
  {
    if p !in before then Diff(p, Added, now[p].hash, now[p].modified)
    else if p !in now then Diff(p, Removed, before[p].hash, before[p].modified)
    else if now[p].modified.Newer(before[p].modified) then Diff(p, Modified, now[p].hash, now[p].modified)
    else Diff(p, Modified, before[p].hash, before[p].modified)
  }

  function DiffPaths(diffs: seq<Diff>): seq<Path> {
    seq(|diffs|, i requires 0 <= i < |diffs| => diffs[i].path)
  }

  /** Exactly the visible changed paths, in ascending order, each with its entry. */
  ghost predicate IsDiff(diffs: seq<Diff>, before: LocalTree, now: LocalTree) {
    && Ascending(DiffPaths(diffs))
    && (forall p :: p in DiffPaths(diffs) <==> Differs(before, now, p) && !HasHiddenComponents(p))
    && (forall i :: 0 <= i < |diffs| ==>
          Differs(before, now, diffs[i].path) && diffs[i] == DiffFor(before, now, diffs[i].path))
  }

  /** The entries of a diff by case: a path only in the present is added, one only in the past
      removed, each with the file it has; a path in both is modified, with the strictly newer
      file or, on a tie, the past one. */
  lemma DiffEntries(diffs: seq<Diff>, before: LocalTree, now: LocalTree, i: nat)
    requires IsDiff(diffs, before, now) && i < |diffs|
    ensures var d, p := diffs[i], diffs[i].path;
      && (p in before || p in now)
      && (d.change == Added <==> p !in before)
      && (d.change == Removed <==> p !in now)
      && (p !in before ==> d.hash == now[p].hash && d.modified == now[p].modified)
      && (p !in now ==> d.hash == before[p].hash && d.modified == before[p].modified)
      && (p in before && p in now ==>
            && before[p].hash != now[p].hash
            && (d.hash, d.modified) ==
               if now[p].modified.Newer(before[p].modified) then (now[p].hash, now[p].modified)
               else (before[p].hash, before[p].modified))
  {
    assert diffs[i] == DiffFor(before, now, diffs[i].path);
  }

  /** A path is hidden when one of its components is: a part of it, or a single name that
      begins with a dot. */
  lemma HiddenParts(p: Path, q: Path, name: string)
    ensures HasHiddenComponents(p + q) <==> HasHiddenComponents(p) || HasHiddenComponents(q)
    ensures HasHiddenComponents([name]) <==> "." <= name
    ensures !HasHiddenComponents([])
  {
    var all := p + q;
    if i :| 0 <= i < |p| && p[i] != [] && p[i][0] == '.' { assert all[i] == p[i]; }
    if i :| 0 <= i < |q| && q[i] != [] && q[i][0] == '.' { assert all[|p| + i] == q[i]; }
    if i :| 0 <= i < |all| && all[i] != [] && all[i][0] == '.' {
      assert all[i] == if i < |p| then p[i] else q[i - |p|];
    }
    assert [name][0] == name;
  }

  /** Which paths a diff lists: the visible ones that came, went, or changed their digest. */
  lemma DiffListed(diffs: seq<Diff>, before: LocalTree, now: LocalTree, p: Path)
    requires IsDiff(diffs, before, now)
    ensures (exists i :: 0 <= i < |diffs| && diffs[i].path == p) <==>
      && (forall k :: 0 <= k < |p| && p[k] != [] ==> p[k][0] != '.')
      && (p in before || p in now) && (p in before && p in now ==> before[p].hash != now[p].hash)
  {
    if i :| 0 <= i < |diffs| && diffs[i].path == p { assert DiffPaths(diffs)[i] == p; }
    if p in DiffPaths(diffs) {
      var i :| 0 <= i < |diffs| && DiffPaths(diffs)[i] == p;
      assert diffs[i].path == p;
    }
  }

  method CompareStates(before: LocalTree, now: LocalTree) returns (diffs: seq<Diff>)
    ensures IsDiff(diffs, before, now)
  {
    var visible := set p | p in before.Keys + now.Keys && !HasHiddenComponents(p);
    var allPaths := Sorted(visible);
    diffs := [];
    ghost var done: seq<Path> := [];
    var i := 0;
    while i < |allPaths|
      invariant i <= |allPaths|
      invariant DiffPaths(diffs) == done && Ascending(done)
      invariant forall p :: p in done <==> p in allPaths[..i] && Differs(before, now, p)
      invariant forall k :: 0 <= k < |diffs| ==>
        Differs(before, now, diffs[k].path) && diffs[k] == DiffFor(before, now, diffs[k].path)
    {
      var path := allPaths[i];
      assert path in allPaths;
      assert allPaths[..i + 1] == allPaths[..i] + [path];
      if path in now && path in before {
        if now[path].hash != before[path].hash {
          var newer := if now[path].modified.Newer(before[path].modified) then now[path] else before[path];
          diffs := diffs + [Diff(path, Modified, newer.hash, newer.modified)];
        }
      } else if path in now {
        diffs := diffs + [Diff(path, Added, now[path].hash, now[path].modified)];
      } else {
        diffs := diffs + [Diff(path, Removed, before[path].hash, before[path].modified)];
      }
      if Differs(before, now, path) {
        AscendingExtend(allPaths, i, done);
        done := done + [path];
        assert DiffPaths(diffs) == done;
      }
      i := i + 1;
    }
    assert allPaths[..i] == allPaths;
  }

  lemma AscendingExtend(all: seq<Path>, i: nat, some: seq<Path>)
    requires Ascending(all) && i < |all| && Ascending(some)
    requires forall p :: p in some ==> p in all[..i]
    ensures Ascending(some + [all[i]])
  {
    forall k | 0 <= k < |some| ensures PathLess(some[k], all[i]) {
      assert some[k] in some;
      var j :| 0 <= j < |all[..i]| && all[..i][j] == some[k];
      assert PathLess(all[j], all[i]);
    }
  }

  /** A state as it comes back from disk. */
  function ReloadedTree(tree: LocalTree): LocalTree {
    map p | p in tree :: FileMetadata(tree[p].hash, Reloaded(tree[p].modified))
  }

  /** Diffing against a reloaded state whose files have since not gone back in time lists the
      visible paths that differ from the state that was saved, no more and no less. A modified
      file is listed with its present metadata, except exactly when its timestamp is, to the
      nanosecond, the one saved and a whole number of microseconds: then with the saved digest. */
  lemma ReloadedDiff(saved: LocalTree, now: LocalTree, diffs: seq<Diff>)
    requires IsDiff(diffs, ReloadedTree(saved), now)
    requires forall p :: p in saved ==> Savable(saved[p].modified)
    requires forall p :: p in saved && p in now ==> !saved[p].modified.Newer(now[p].modified)
    ensures forall p :: p in DiffPaths(diffs) <==> Differs(saved, now, p) && !HasHiddenComponents(p)
    ensures forall i :: 0 <= i < |diffs| && diffs[i].change == Modified ==>
      var p := diffs[i].path;
      && p in saved && p in now
      && (diffs[i] == Diff(p, Modified, now[p].hash, now[p].modified) <==>
          !(now[p].modified == saved[p].modified && saved[p].modified.nanos % 1_000 == 0))
  {
    forall p ensures p in DiffPaths(diffs) <==> Differs(saved, now, p) && !HasHiddenComponents(p) {
      assert Differs(ReloadedTree(saved), now, p) <==> Differs(saved, now, p);
    }
    forall i | 0 <= i < |diffs| && diffs[i].change == Modified
      ensures var p := diffs[i].path;
        && p in saved && p in now
        && (diffs[i] == Diff(p, Modified, now[p].hash, now[p].modified) <==>
            !(now[p].modified == saved[p].modified && saved[p].modified.nanos % 1_000 == 0))
    {
      ReloadedEntry(saved, now, diffs[i]);
    }
  }

  lemma ReloadedEntry(saved: LocalTree, now: LocalTree, d: Diff)
    requires Differs(ReloadedTree(saved), now, d.path) && d == DiffFor(ReloadedTree(saved), now, d.path)
    requires d.path in saved ==> Savable(saved[d.path].modified)
    requires d.path in saved && d.path in now ==> !saved[d.path].modified.Newer(now[d.path].modified)
    ensures d.change == Modified ==>
      var p := d.path;
      && p in saved && p in now
      && (d == Diff(p, Modified, now[p].hash, now[p].modified) <==>
          !(now[p].modified == saved[p].modified && saved[p].modified.nanos % 1_000 == 0))
  {
    if d.path in saved {
      ReloadIsCut(saved[d.path].modified);
    }
  }
}
