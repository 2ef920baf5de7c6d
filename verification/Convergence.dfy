/** What executing a plan does to two replicas: they agree after one. */
module Convergence {
  import opened Common
  import opened Messages
  import opened PathOrder
  import opened Signatures
  import opened Writer
  import opened SyncPlan

  datatype Replicas = Replicas(server: Files, client: Files)

  // ---------- Executing a plan ----------

  /** An upload copies the client's file to the server with the action's timestamp, a
      download the server's to the client; a skip does nothing. */
  function Perform(r: Replicas, a: FileAction): Replicas {
    var modified := a.latestModified.GetOr(EPOCH);
    match a.direction
    case Upload =>
      if a.path in r.client then r.(server := r.server[a.path := File(r.client[a.path].content, modified)]) else r
    case Download =>
      if a.path in r.server then r.(client := r.client[a.path := File(r.server[a.path].content, modified)]) else r
    case Skip => r
  }

  function Execute(r: Replicas, plan: seq<FileAction>): Replicas {
    if plan == [] then r else Perform(Execute(r, plan[..|plan| - 1]), plan[|plan| - 1])
  }

  /** The two files at one path. */
  function Pair(r: Replicas, p: Path): (Option<File>, Option<File>) {
    (FileAt(r.server, p), FileAt(r.client, p))
  }

  lemma PerformAt(r: Replicas, r': Replicas, a: FileAction, p: Path)
    requires Pair(r, a.path) == Pair(r', a.path)
    ensures Pair(Perform(r, a), a.path) == Pair(Perform(r', a), a.path)
    ensures p != a.path ==> Pair(Perform(r, a), p) == Pair(r, p)
  {
    assert a.path in r.server <==> a.path in r'.server;
    assert a.path in r.client <==> a.path in r'.client;
  }

  lemma {:induction false} ExecuteElsewhere(r: Replicas, plan: seq<FileAction>, p: Path)
    requires forall i :: 0 <= i < |plan| ==> plan[i].path != p
    ensures Pair(Execute(r, plan), p) == Pair(r, p)
    decreases |plan|
  {
    if plan != [] {
      var n := |plan| - 1;
      ExecuteElsewhere(r, plan[..n], p);
      PerformAt(Execute(r, plan[..n]), Execute(r, plan[..n]), plan[n], p);
    }
  }

  ghost predicate DistinctPaths(plan: seq<FileAction>) {
    forall i, j :: 0 <= i < j < |plan| ==> plan[i].path != plan[j].path
  }

  /** In a plan with each path once, an action acts on its path as if it were alone. */
  lemma {:induction false} ExecuteAt(r: Replicas, plan: seq<FileAction>, i: nat)
    requires DistinctPaths(plan) && i < |plan|
    ensures Pair(Execute(r, plan), plan[i].path) == Pair(Perform(r, plan[i]), plan[i].path)
    decreases |plan|
  {
    var n, p := |plan| - 1, plan[i].path;
    if i == n {
      ExecuteElsewhere(r, plan[..n], p);
      PerformAt(Execute(r, plan[..n]), r, plan[n], p);
    } else {
      ExecuteAt(r, plan[..n], i);
      PerformAt(Execute(r, plan[..n]), Execute(r, plan[..n]), plan[n], p);
    }
  }

  lemma AscendingDistinct(plan: seq<FileAction>)
    requires Ascending(Paths(plan))
    ensures DistinctPaths(plan)
  {
    PathLessStrictTotal();
    forall i, j | 0 <= i < j < |plan| ensures plan[i].path != plan[j].path {
      assert PathLess(Paths(plan)[i], Paths(plan)[j]);
    }
  }

  /** What a plan on full listings leaves at a path: nothing changes when the hashes agree or
      the timestamps tie; otherwise the newer, or the only, version is on both sides. */
  function Merged(h: Hashes, s: Option<File>, c: Option<File>): (Option<File>, Option<File>) {
    match (s, c)
    case (Some(x), Some(y)) =>
      if h.strong(x.content) == h.strong(y.content) then (s, c)
      else if x.modified.Newer(y.modified) then (s, s)
      else if y.modified.Newer(x.modified) then (c, c)
      else (s, c)
    case (Some(_), None) => (s, s)
    case _ => (c, c)
  }

  lemma PlanMerges(h: Hashes, plan: seq<FileAction>, server: Files, client: Files, p: Path)
    requires PlansFor(h, plan, server, client)
    ensures Pair(Execute(Replicas(server, client), plan), p) == Merged(h, FileAt(server, p), FileAt(client, p))
  {
    var r := Replicas(server, client);
    AscendingDistinct(plan);
    if p in Paths(plan) {
      var i :| 0 <= i < |plan| && Paths(plan)[i] == p;
      ExecuteAt(r, plan, i);
      assert plan[i] == ActionFor(Listing(h, server), Statuses(h, client), p);
      PerformMerges(h, server, client, p);
    } else {
      forall i | 0 <= i < |plan| ensures plan[i].path != p { assert Paths(plan)[i] == plan[i].path; }
      ExecuteElsewhere(r, plan, p);
    }
  }

  lemma PerformMerges(h: Hashes, server: Files, client: Files, p: Path)
    requires p in server || p in client
    ensures Pair(Perform(Replicas(server, client), ActionFor(Listing(h, server), Statuses(h, client), p)), p)
         == Merged(h, FileAt(server, p), FileAt(client, p))
  {
  }

  // ---------- Two parties ----------

  /** Files at the same path with the same digest are the same. */
  ghost predicate NoDigestCollision(h: Hashes, a: Files, b: Files) {
    forall p :: p in a && p in b && h.strong(a[p].content) == h.strong(b[p].content) ==> a[p].content == b[p].content
  }

  /** A digest that tells the two contents at each path apart does not collide. */
  lemma DistinctDigestsSuffice(h: Hashes, a: Files, b: Files)
    requires forall p :: p in a && p in b && a[p].content != b[p].content ==>
      h.strong(a[p].content) != h.strong(b[p].content)
    ensures NoDigestCollision(h, a, b)
  {
  }

  /** Two different contents with the same timestamp: the planner does not choose. */
  predicate Conflict(a: Files, b: Files, p: Path) {
    p in a && p in b && a[p].modified == b[p].modified && a[p].content != b[p].content
  }

  /** A replica's file is kept, or replaced by a strictly newer version. */
  predicate KeptOrNewer(before: Files, after: Files, p: Path) {
    p in before ==> p in after && (after[p] == before[p] || after[p].modified.Newer(before[p].modified))
  }

  /** What one plan achieves at a path: both replicas hold it if either did, they agree on it
      exactly when it was not in conflict, and neither gave a version up for one that is not
      strictly newer. */
  lemma TwoPartyAt(h: Hashes, plan: seq<FileAction>, server: Files, client: Files, p: Path)
    requires PlansFor(h, plan, server, client) && NoDigestCollision(h, server, client)
    ensures var r := Execute(Replicas(server, client), plan);
      && (p in r.server <==> p in server || p in client) && (p in r.client <==> p in r.server)
      && (p in r.server ==> (r.server[p].content == r.client[p].content <==> !Conflict(server, client, p)))
      && KeptOrNewer(server, r.server, p) && KeptOrNewer(client, r.client, p)
  {
    var r := Execute(Replicas(server, client), plan);
    PlanMerges(h, plan, server, client, p);
    hide Execute, PlansFor;
    assert Pair(r, p).0 == FileAt(r.server, p) && Pair(r, p).1 == FileAt(r.client, p);
  }

  /** After one plan both replicas hold every path, agree on a path exactly when it was not
      in conflict, and no version was overwritten by an equal or older one. */
  lemma TwoPartyConvergence(h: Hashes, plan: seq<FileAction>, server: Files, client: Files)
    requires PlansFor(h, plan, server, client) && NoDigestCollision(h, server, client)
    ensures var r := Execute(Replicas(server, client), plan);
      && r.server.Keys == r.client.Keys == server.Keys + client.Keys
      && (forall p :: p in r.server ==> (r.server[p].content == r.client[p].content <==> !Conflict(server, client, p)))
      && (forall p :: KeptOrNewer(server, r.server, p) && KeptOrNewer(client, r.client, p))
  {
    var r := Execute(Replicas(server, client), plan);
    hide *;
    forall p
      ensures (p in r.server <==> p in server || p in client) && (p in r.client <==> p in r.server)
      ensures p in r.server ==> (r.server[p].content == r.client[p].content <==> !Conflict(server, client, p))
      ensures KeptOrNewer(server, r.server, p) && KeptOrNewer(client, r.client, p)
    {
      TwoPartyAt(h, plan, server, client, p);
    }
    assert r.server.Keys == server.Keys + client.Keys;
    assert r.client.Keys == server.Keys + client.Keys;
  }

  /** Planning again after a plan was executed yields only Skip. */
  lemma Idempotence(h: Hashes, plan: seq<FileAction>, server: Files, client: Files, again: seq<FileAction>)
    requires PlansFor(h, plan, server, client)
    requires var r := Execute(Replicas(server, client), plan); PlansFor(h, again, r.server, r.client)
    ensures forall i :: 0 <= i < |again| ==> again[i].direction.Skip?
  {
    var r := Execute(Replicas(server, client), plan);
    hide Execute;
    forall i | 0 <= i < |again| ensures again[i].direction.Skip? {
      var p := again[i].path;
      PlanMerges(h, plan, server, client, p);
      assert again[i] == ActionFor(Listing(h, r.server), Statuses(h, r.client), p);
      assert Paths(again)[i] == p;
      assert p in Paths(again);
      assert Pair(r, p) == Merged(h, FileAt(server, p), FileAt(client, p));
      assert Pair(r, p).0.Some? || Pair(r, p).1.Some?;
    }
  }
}
