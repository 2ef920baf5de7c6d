/** The last-writer-wins planner of src/sync/state.rs and what its plans do. */
module SyncPlan {
  import opened Common
  import opened Messages
  import opened PathOrder
  import opened Signatures
  import opened Writer

  datatype FileMetadata = FileMetadata(hash: Digest, modified: Timestamp)

  datatype FileStatus = FileStatus(path: Path, timestamp: Option<Timestamp>, hash: Bytes)

  type LocalTree = map<Path, FileMetadata>

  type RemoteTree = map<Path, FileStatus>

  function At<V>(tree: map<Path, V>, p: Path): Option<V> {
    if p in tree then Some(tree[p]) else None
  }

  /** The decision for one path, with the timestamp of the winner. The server is local, so
      its newer file is downloaded by the client. */
  function Decide(local: Option<FileMetadata>, remote: Option<FileStatus>): (Direction, Timestamp) {
    match (local, remote)
    case (Some(l), Some(r)) =>
      if r.hash == l.hash then (Skip, EPOCH)
      else
        var rt := r.timestamp.GetOr(EPOCH);
        if l.modified.Newer(rt) then (Download, l.modified)
        else if rt.Newer(l.modified) then (Upload, rt)
        else (Skip, l.modified)
    case (Some(l), None) => (Download, l.modified)
    case (None, Some(r)) => (Upload, r.timestamp.GetOr(EPOCH))
    case (None, None) => (Skip, EPOCH)
  }

  function ActionFor(local: LocalTree, remote: RemoteTree, p: Path): FileAction {
    var d := Decide(At(local, p), At(remote, p));
    FileAction(p, d.0, Some(d.1))
  }

  function Paths(plan: seq<FileAction>): seq<Path> {
    seq(|plan|, i requires 0 <= i < |plan| => plan[i].path)
  }

  /** One action for each path of either tree, in ascending order of paths. */
  ghost predicate IsPlan(plan: seq<FileAction>, local: LocalTree, remote: RemoteTree) {
    && Ascending(Paths(plan))
    && (forall p :: p in Paths(plan) <==> p in local || p in remote)
    && (forall i :: 0 <= i < |plan| ==> plan[i] == ActionFor(local, remote, plan[i].path))
  }

  /** The received statuses as a tree; of several for one path the last counts. */
  function TreeOf(statuses: seq<FileStatus>): RemoteTree {
    if statuses == [] then map[]
    else
      var n := |statuses| - 1;
      TreeOf(statuses[..n])[statuses[n].path := statuses[n]]
  }

  /** Status `k` is for the path, and none after it is. */
  predicate IsLast(statuses: seq<FileStatus>, p: Path, k: nat)
    requires k < |statuses|
  {
    statuses[k].path == p && forall l :: k < l < |statuses| ==> statuses[l].path != p
  }

  /** Of several statuses for a path the last is the one in the tree, whole. */
  lemma {:induction false} TreeOfIs(statuses: seq<FileStatus>, p: Path)
    ensures p in TreeOf(statuses) <==> exists k :: 0 <= k < |statuses| && statuses[k].path == p
    ensures forall k :: 0 <= k < |statuses| && IsLast(statuses, p, k) ==> TreeOf(statuses)[p] == statuses[k]
    decreases |statuses|
  {
    if statuses != [] {
      var n := |statuses| - 1;
      TreeOfIs(statuses[..n], p);
      hide TreeOf;
      assert forall k :: 0 <= k < n ==> statuses[..n][k] == statuses[k];
      if statuses[n].path != p {
        forall k | 0 <= k < |statuses| && IsLast(statuses, p, k) ensures k < n && IsLast(statuses[..n], p, k) {
        }
      }
    }
  }

  method GenerateSyncPlan(stateNow: LocalTree, remoteFiles: seq<FileStatus>) returns (plan: seq<FileAction>)
    ensures IsPlan(plan, stateNow, TreeOf(remoteFiles))
  {
    var remoteTree: RemoteTree := map[];
    var n := 0;
    while n < |remoteFiles|
      invariant n <= |remoteFiles| && remoteTree == TreeOf(remoteFiles[..n])
    {
      assert remoteFiles[..n + 1][..n] == remoteFiles[..n];
      remoteTree := remoteTree[remoteFiles[n].path := remoteFiles[n]];
      n := n + 1;
    }
    assert remoteFiles[..n] == remoteFiles;
    var allPaths := Sorted(stateNow.Keys + remoteTree.Keys);
    plan := [];
    var i := 0;
    while i < |allPaths|
      invariant i <= |allPaths| && |plan| == i
      invariant forall k :: 0 <= k < i ==> plan[k] == ActionFor(stateNow, remoteTree, allPaths[k])
    {
      var path := allPaths[i];
      var latest := EPOCH;
      var direction := Skip;
      if path in stateNow && path in remoteTree {
        if remoteTree[path].hash != stateNow[path].hash {
          var remoteTimestamp := remoteTree[path].timestamp.GetOr(EPOCH);
          if stateNow[path].modified.Newer(remoteTimestamp) {
            latest, direction := stateNow[path].modified, Download;
          } else if remoteTimestamp.Newer(stateNow[path].modified) {
            latest, direction := remoteTimestamp, Upload;
          } else {
            latest := stateNow[path].modified;
          }
        }
      } else if path in stateNow {
        latest, direction := stateNow[path].modified, Download;
      } else if path in remoteTree {
        latest, direction := remoteTree[path].timestamp.GetOr(EPOCH), Upload;
      }
      plan := plan + [FileAction(path, direction, Some(latest))];
      i := i + 1;
    }
    assert Paths(plan) == allPaths;
  }

  /** The plan is determined by the two trees. */
  lemma PlanUnique(plan: seq<FileAction>, plan': seq<FileAction>, local: LocalTree, remote: RemoteTree)
    requires IsPlan(plan, local, remote) && IsPlan(plan', local, remote)
    ensures plan == plan'
  {
    forall p ensures p in Paths(plan) <==> p in Paths(plan') {}
    AscendingUnique(Paths(plan), Paths(plan'));
    assert |plan| == |Paths(plan)| == |plan'|;
    forall i | 0 <= i < |plan| ensures plan[i] == plan'[i] {
      assert Paths(plan)[i] == Paths(plan')[i];
    }
  }

  lemma PlanExists(local: LocalTree, remote: RemoteTree) returns (plan: seq<FileAction>)
    ensures IsPlan(plan, local, remote)
  {
    var paths := SortedExists(local.Keys + remote.Keys);
    plan := seq(|paths|, i requires 0 <= i < |paths| => ActionFor(local, remote, paths[i]));
    assert Paths(plan) == paths;
  }

  // ---------- Full listings ----------

  function Listing(h: Hashes, files: Files): LocalTree {
    map p | p in files :: FileMetadata(h.strong(files[p].content), files[p].modified)
  }

  function Statuses(h: Hashes, files: Files): RemoteTree {
    map p | p in files :: FileStatus(p, Some(files[p].modified), h.strong(files[p].content))
  }

  /** The plan for two replicas when the client lists all its files. */
  ghost predicate PlansFor(h: Hashes, plan: seq<FileAction>, server: Files, client: Files) {
    IsPlan(plan, Listing(h, server), Statuses(h, client))
  }

  function Mirrored(a: FileAction): FileAction {
    a.(direction := match a.direction case Upload => Download case Download => Upload case Skip => Skip)
  }

  lemma DecideMirrored(h: Hashes, server: Files, client: Files, p: Path)
    ensures Mirrored(ActionFor(Listing(h, server), Statuses(h, client), p))
         == ActionFor(Listing(h, client), Statuses(h, server), p)
  {
    if p in server && p in client {
      assert Listing(h, server)[p].hash == h.strong(server[p].content) == Statuses(h, server)[p].hash;
      assert Listing(h, client)[p].hash == h.strong(client[p].content) == Statuses(h, client)[p].hash;
    }
  }

  /** Swapping the roles of the two replicas exchanges Upload and Download in every plan,
      keeps every Skip, and keeps the paths and the timestamps. */
  lemma RoleSymmetry(h: Hashes, plan: seq<FileAction>, server: Files, client: Files)
    requires PlansFor(h, plan, server, client)
    ensures PlansFor(h, seq(|plan|, i requires 0 <= i < |plan| => Mirrored(plan[i])), client, server)
  {
    var plan' := seq(|plan|, i requires 0 <= i < |plan| => Mirrored(plan[i]));
    assert Paths(plan') == Paths(plan);
    assert Listing(h, server).Keys == server.Keys == Statuses(h, server).Keys;
    assert Listing(h, client).Keys == client.Keys == Statuses(h, client).Keys;
    hide Listing, Statuses, ActionFor, Ascending;
    forall i | 0 <= i < |plan|
      ensures plan'[i] == ActionFor(Listing(h, client), Statuses(h, server), plan'[i].path)
    {
      DecideMirrored(h, server, client, plan[i].path);
    }
  }

  /** The statuses list each file of the replica once, in any order. */
  ghost predicate Lists(h: Hashes, files: Files, statuses: seq<FileStatus>) {
    && (forall p :: p in files ==> exists k :: 0 <= k < |statuses| && statuses[k].path == p)
    && (forall k :: 0 <= k < |statuses| ==>
          && statuses[k].path in files
          && statuses[k].timestamp == Some(files[statuses[k].path].modified)
          && statuses[k].hash == h.strong(files[statuses[k].path].content))
    && (forall k, l :: 0 <= k < l < |statuses| ==> statuses[k].path != statuses[l].path)
  }

  /** The tree of a full listing is the replica's, and the plan made from it is the plan for
      the two replicas. */
  lemma ListingPlans(h: Hashes, server: Files, client: Files, statuses: seq<FileStatus>, plan: seq<FileAction>)
    requires Lists(h, client, statuses) && IsPlan(plan, Listing(h, server), TreeOf(statuses))
    ensures TreeOf(statuses) == Statuses(h, client)
    ensures PlansFor(h, plan, server, client)
  {
    var tree, all := TreeOf(statuses), Statuses(h, client);
    forall p ensures (p in tree <==> p in all) && (p in tree ==> tree[p] == all[p]) {
      TreeOfIs(statuses, p);
      if k :| 0 <= k < |statuses| && statuses[k].path == p {
        assert IsLast(statuses, p, k);
        assert tree[p] == statuses[k] == FileStatus(p, Some(client[p].modified), h.strong(client[p].content));
      }
    }
    assert tree == all;
  }

  /** Every action of a plan by case. Equal digests are skipped with the time zero, a tie with
      the server's time; otherwise the newer or only side sends, with its own time. */
  lemma PlanEntries(plan: seq<FileAction>, local: LocalTree, remote: RemoteTree, i: nat)
    requires IsPlan(plan, local, remote) && i < |plan|
    ensures plan[i].path in local || plan[i].path in remote
    ensures var a, p := plan[i], plan[i].path;
      && (p !in remote ==> a.direction == Download && a.latestModified == Some(local[p].modified))
      && (p !in local ==> a.direction == Upload && a.latestModified == Some(remote[p].timestamp.GetOr(Timestamp(0, 0))))
      && (p in local && p in remote ==>
            var l, r := local[p].modified, remote[p].timestamp.GetOr(Timestamp(0, 0));
            if local[p].hash == remote[p].hash then a.direction == Skip && a.latestModified == Some(Timestamp(0, 0))
            else if l.Newer(r) then a.direction == Download && a.latestModified == Some(l)
            else if r.Newer(l) then a.direction == Upload && a.latestModified == Some(r)
            else a.direction == Skip && a.latestModified == Some(l))
  {
    assert Paths(plan)[i] in Paths(plan);
    assert plan[i] == ActionFor(local, remote, plan[i].path);
  }
}
